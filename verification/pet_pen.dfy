/** The pet pen (`src/components/game/PetPen.tsx`): hungry pets first,
    hungriest first, then the satisfied ones; an answer to a selected pet
    is recorded as a feeding. */
module PetPen {
  import opened Optional
  import opened Sequences
  import opened GameTypes
  import GameEngine

  predicate IsSatisfied(p: Pet)
  {
    p.hunger >= 50.0
  }

  /** The comparator `a.hunger - b.hunger` is negative. */
  predicate HungerBefore(a: Pet, b: Pet)
  {
    a.hunger - b.hunger < 0.0
  }

  lemma HungerOrder()
    ensures StrictWeakOrder(HungerBefore)
  {
  }

  /** The hungry pets, ordered by ascending hunger. */
  function HungryList(pets: seq<Pet>): (r: seq<Pet>)
    ensures multiset(r) == multiset(Filter(pets, IsHungry))
    ensures forall p :: p in r <==> p in pets && IsHungry(p)
    ensures forall i, j :: 0 <= i < j < |r| ==> r[i].hunger <= r[j].hunger
  {
    var hungry := Filter(pets, IsHungry);
    HungerOrder();
    SortSorted(hungry, HungerBefore);
    var r := Sort(hungry, HungerBefore);
    assert forall p :: p in r <==> p in multiset(hungry);
    r
  }

  /** The satisfied pets, in roster order. */
  function SatisfiedList(pets: seq<Pet>): (r: seq<Pet>)
    ensures forall p :: p in r <==> p in pets && IsSatisfied(p)
  {
    Filter(pets, IsSatisfied)
  }

  /** The satisfied section keeps roster order: it distributes over a
      split of the roster, and a one-pet roster shows its pet exactly when
      the pet is satisfied. */
  lemma SatisfiedListOrder(a: seq<Pet>, b: seq<Pet>, p: Pet)
    ensures SatisfiedList(a + b) == SatisfiedList(a) + SatisfiedList(b)
    ensures SatisfiedList([p]) == if IsSatisfied(p) then [p] else []
  {
    FilterAppend(a, b, IsSatisfied);
    FilterSingleton(p, IsSatisfied);
  }

  /** Every pet is shown exactly once, in one of the two sections. */
  lemma PenPartition(pets: seq<Pet>)
    ensures multiset(HungryList(pets)) + multiset(SatisfiedList(pets)) == multiset(pets)
  {
    FilterPartition(pets, IsHungry, IsSatisfied);
  }

  /** A pet card as the pen shows it. */
  datatype Card = Card(pet: Pet, isHungry: bool, showProblem: bool)

  /** Cards for a section of the pen. */
  function SectionCards(pets: seq<Pet>, hungry: bool): (cards: seq<Card>)
    ensures |cards| == |pets|
  {
    seq(|pets|, i requires 0 <= i < |pets| => Card(pets[i], hungry, hungry && pets[i].hunger < 30.0))
  }

  lemma SectionLengths(pets: seq<Pet>)
    ensures |HungryList(pets)| + |SatisfiedList(pets)| == |pets|
  {
    PenPartition(pets);
    assert |multiset(pets)| == |multiset(HungryList(pets)) + multiset(SatisfiedList(pets))|;
  }

  lemma HungryEntry(pets: seq<Pet>, i: nat)
    requires i < |HungryList(pets)|
    ensures HungryList(pets)[i] in pets && IsHungry(HungryList(pets)[i])
  {
    assert HungryList(pets)[i] in HungryList(pets);
  }

  lemma SatisfiedEntry(pets: seq<Pet>, i: nat)
    requires i < |SatisfiedList(pets)|
    ensures SatisfiedList(pets)[i] in pets && IsSatisfied(SatisfiedList(pets)[i])
  {
    assert SatisfiedList(pets)[i] in SatisfiedList(pets);
  }

  /** The pen's cards: the hungry section, then the satisfied section. */
  function PenCards(pets: seq<Pet>): (cards: seq<Card>)
    ensures |cards| == |pets|
  {
    SectionLengths(pets);
    SectionCards(HungryList(pets), true) + SectionCards(SatisfiedList(pets), false)
  }

  /** Each card is one of the pets; it is in the hungry section exactly
      when hunger is below 50, and shows its problem bubble exactly when it
      is hungry with hunger below 30. */
  lemma PenCard(pets: seq<Pet>, i: nat)
    requires i < |PenCards(pets)|
    ensures var c := PenCards(pets)[i];
      && c.pet in pets
      && (c.isHungry <==> IsHungry(c.pet))
      && (c.showProblem <==> c.isHungry && c.pet.hunger < 30.0)
  {
    var front := SectionCards(HungryList(pets), true);
    var back := SectionCards(SatisfiedList(pets), false);
    var cards := PenCards(pets);
    assert cards == front + back;
    if i < |front| {
      assert cards[i] == front[i];
      HungryEntry(pets, i);
    } else {
      var j := i - |front|;
      assert cards[i] == back[j];
      SatisfiedEntry(pets, j);
    }
  }

  /** The selected pet's answer, recorded as a feeding of that pet. */
  function PenAnswer(game: GameState, selected: Option<Pet>, answer: int, timeMs: int, now: int): (r: GameState)
    ensures selected.None? ==> r == game
    ensures selected.Some? ==>
      r == GameEngine.FeedPet(game, selected.value.id, answer == selected.value.fact.answer, timeMs, now)
    ensures selected.Some? && GameEngine.HasPet(game, selected.value.id) ==>
      (r.coins > game.coins <==> answer == selected.value.fact.answer)
    ensures ValidState(game) ==> ValidState(r)
  {
    if selected.None? then game
    else
      var pet := selected.value;
      GameEngine.FeedPet(game, pet.id, answer == pet.fact.answer, timeMs, now)
  }
}
