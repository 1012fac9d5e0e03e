/** The hall of fame (`src/components/game/Leaderboard.tsx`): the ten best
    pets by rank, streak and fast answers, split into a podium of three
    and a numbered list. */
module Leaderboard {
  import opened Sequences
  import opened GameTypes
  import PetCollection

  /** The comparator: rank first, then higher streak, then more fast answers. */
  function LeaderCompare(a: Pet, b: Pet): int
  {
    var rankDiff := PetCollection.DisplayIndex(a.rank) - PetCollection.DisplayIndex(b.rank);
    if rankDiff != 0 then rankDiff
    else if b.correctStreak != a.correctStreak then b.correctStreak - a.correctStreak
    else b.fastCorrects - a.fastCorrects
  }

  predicate LeaderBefore(a: Pet, b: Pet)
  {
    LeaderCompare(a, b) < 0
  }

  lemma LeaderOrder()
    ensures StrictWeakOrder(LeaderBefore)
  {
  }

  const Shown: nat := 10

  /** The pets on the board: at most ten (all of them when fewer), drawn
      from the input without repetition, best first, and no pet left off
      the board would rank above one on it. */
  function Ranking(pets: seq<Pet>): (r: seq<Pet>)
    ensures |r| == if |pets| < 10 then |pets| else 10
    ensures multiset(r) <= multiset(pets)
    ensures forall i, j :: 0 <= i < j < |r| ==> !LeaderBefore(r[j], r[i])
    ensures forall y, i :: y in multiset(pets) - multiset(r) && 0 <= i < |r| ==> !LeaderBefore(y, r[i])
  {
    var sorted := Sort(pets, LeaderBefore);
    LeaderOrder();
    SortSorted(pets, LeaderBefore);
    var n := if |pets| < Shown then |pets| else Shown;
    SortedPrefixDominates(sorted, n, LeaderBefore);
    assert sorted == sorted[..n] + sorted[n..];
    sorted[..n]
  }

  /** The board is ordered by rank, neon first; equal ranks by higher
      streak; equal rank and streak by more fast answers. */
  lemma RankingOrder(pets: seq<Pet>, i: nat, j: nat)
    requires i < j < |Ranking(pets)|
    ensures var r := Ranking(pets);
      && Level(r[i].rank) >= Level(r[j].rank)
      && (r[i].rank == r[j].rank ==> r[i].correctStreak >= r[j].correctStreak)
      && (r[i].rank == r[j].rank && r[i].correctStreak == r[j].correctStreak ==>
            r[i].fastCorrects >= r[j].fastCorrects)
  {
    var r := Ranking(pets);
    assert !LeaderBefore(r[j], r[i]);
  }

  /** The podium: the first three places. */
  function Podium(ranking: seq<Pet>): seq<Pet>
  {
    if |ranking| < 3 then ranking else ranking[..3]
  }

  /** The numbered list below the podium. */
  function Rest(ranking: seq<Pet>): seq<Pet>
  {
    if |ranking| < 3 then [] else ranking[3..]
  }

  /** The number shown beside entry `k` of the list. */
  function Place(k: nat): nat
  {
    k + 4
  }

  /** Podium and list together are the ranking, and the list's numbers
      are the entries' one-based positions on the board. */
  lemma PodiumAndRest(ranking: seq<Pet>)
    ensures Podium(ranking) + Rest(ranking) == ranking
    ensures |Podium(ranking)| <= 3
    ensures |Rest(ranking)| > 0 ==> |Podium(ranking)| == 3
    ensures forall k :: 0 <= k < |Rest(ranking)| ==> Rest(ranking)[k] == ranking[Place(k) - 1]
  {
  }
}
