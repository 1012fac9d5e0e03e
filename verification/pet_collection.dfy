/** The collection screen (`src/components/game/PetCollection.tsx`):
    pets sorted by rank and streak, per-tier counts, and the equipped
    section. */
module PetCollection {
  import opened Sequences
  import opened GameTypes
  import GameEngine

  /** Position in the display order neon, diamond, gold, bronze. */
  function DisplayIndex(r: Rank): int
  {
    match r
    case Neon => 0
    case Diamond => 1
    case Gold => 2
    case Bronze => 3
  }

  /** The display order is the rank order reversed. */
  lemma DisplayIndexReversesLevel(r: Rank)
    ensures DisplayIndex(r) == 3 - Level(r)
  {
  }

  /** The comparator: rank difference first, then higher streak first. */
  function CollectionCompare(a: Pet, b: Pet): int
  {
    var rankDiff := DisplayIndex(a.rank) - DisplayIndex(b.rank);
    if rankDiff != 0 then rankDiff else b.correctStreak - a.correctStreak
  }

  predicate CollectionBefore(a: Pet, b: Pet)
  {
    CollectionCompare(a, b) < 0
  }

  lemma CollectionOrder()
    ensures StrictWeakOrder(CollectionBefore)
  {
  }

  /** The grid order: a rearrangement of the pets, higher ranks first and,
      within a rank, longer streaks first. */
  function SortedCollection(pets: seq<Pet>): (r: seq<Pet>)
    ensures multiset(r) == multiset(pets)
    ensures forall i, j :: 0 <= i < j < |r| ==> Level(r[i].rank) >= Level(r[j].rank)
    ensures forall i, j :: 0 <= i < j < |r| && r[i].rank == r[j].rank ==>
      r[i].correctStreak >= r[j].correctStreak
  {
    CollectionOrder();
    SortSorted(pets, CollectionBefore);
    Sort(pets, CollectionBefore)
  }

  datatype Stats = Stats(total: nat, neon: nat, diamond: nat, gold: nat, bronze: nat)

  function HasRank(r: Rank): Pet -> bool
  {
    (p: Pet) => p.rank == r
  }

  /** The stat badges: the total and the number of pets of each tier. */
  function TierCounts(pets: seq<Pet>): Stats
  {
    Stats(|pets|,
      |Filter(pets, HasRank(Neon))|,
      |Filter(pets, HasRank(Diamond))|,
      |Filter(pets, HasRank(Gold))|,
      |Filter(pets, HasRank(Bronze))|)
  }

  /** Every pet is counted in exactly one tier. */
  lemma {:induction false} TierCountsSum(pets: seq<Pet>)
    ensures var st := TierCounts(pets); st.neon + st.diamond + st.gold + st.bronze == st.total
  {
    if |pets| > 0 {
      TierCountsSum(pets[1..]);
    }
  }

  /** The equipped section: the pets whose id is equipped, in roster order. */
  function EquippedSection(pets: seq<Pet>, equippedPetIds: seq<string>): (r: seq<Pet>)
    ensures forall p :: p in r <==> p in pets && p.id in equippedPetIds
  {
    GameEngine.PetsWithIds(pets, equippedPetIds)
  }

  /** The equipped section keeps the order of the pet list: it distributes
      over a split of the list, and a one-pet list shows its pet exactly
      when the pet's id is equipped. */
  lemma EquippedSectionOrder(a: seq<Pet>, b: seq<Pet>, equippedPetIds: seq<string>, p: Pet)
    ensures EquippedSection(a + b, equippedPetIds)
      == EquippedSection(a, equippedPetIds) + EquippedSection(b, equippedPetIds)
    ensures EquippedSection([p], equippedPetIds) == if p.id in equippedPetIds then [p] else []
  {
    GameEngine.PetsWithIdsOrder(a, b, equippedPetIds, p);
  }
}
