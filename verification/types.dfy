/** The game's record model: ranks, fact families, math facts, pets and
    the process-wide game state. */
module GameTypes {
  import opened Sequences

  /** The four pet tiers; `Level` gives their order bronze < gold < diamond < neon. */
  datatype Rank = Bronze | Gold | Diamond | Neon

  /** Position of a rank in the order bronze, gold, diamond, neon. */
  function Level(r: Rank): nat
  {
    match r
    case Bronze => 0
    case Gold => 1
    case Diamond => 2
    case Neon => 3
  }

  /** Cosmetic grouping of a fact: by its smaller operand, or `Division`. */
  datatype Family = Twos | Threes | Fours | Fives | Sixes | Sevens | Eights | Nines | Tens | Division

  datatype Operation = Multiply | Divide

  /** A math fact; it never changes once created. */
  datatype MathFact = MathFact(
    id: string,
    operation: Operation,
    num1: nat,
    num2: nat,
    answer: int,
    family: Family)

  /** A pet. `lastFed` is a millisecond timestamp; `hunger` runs from 0
      (starving) to 100 (full); `stability` slows hunger decay. */
  datatype Pet = Pet(
    id: string,
    name: string,
    emoji: string,
    fact: MathFact,
    rank: Rank,
    hunger: real,
    lastFed: int,
    stability: real,
    correctStreak: nat,
    totalAttempts: nat,
    fastCorrects: nat)

  datatype GameState = GameState(
    coins: int,
    equippedPets: seq<string>,
    allPets: seq<Pet>,
    currentZone: string)

  /** Equipping holds at most three pets. */
  const MaxEquipped: nat := 3

  /** The bounds every pet keeps: hunger in [0, 100], stability in
      [0.5, 7], and attempts counting at least the current streak and the
      fast answers. */
  predicate ValidPet(p: Pet)
  {
    && 0.0 <= p.hunger <= 100.0
    && 0.5 <= p.stability <= 7.0
    && p.fastCorrects <= p.totalAttempts
    && p.correctStreak <= p.totalAttempts
  }

  /** A pet is hungry while its hunger is below 50. */
  predicate IsHungry(p: Pet)
  {
    p.hunger < 50.0
  }

  /** Every pet is valid, the wallet is not negative, and the equip list
      holds at most three ids, none twice. */
  predicate ValidState(s: GameState)
  {
    && s.coins >= 0
    && |s.equippedPets| <= MaxEquipped
    && Distinct(s.equippedPets)
    && forall i :: 0 <= i < |s.allPets| ==> ValidPet(s.allPets[i])
  }
}
