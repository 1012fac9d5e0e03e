/** The progression engine (`src/hooks/useGameState.ts`): feeding and
    mining answers, equipping, the hunger-decay tick, the default state
    and the derived views. Each entry point is a pure transition from the
    previous state; the wall-clock time of a feeding is the `now` parameter. */
module GameEngine {
  import opened Sequences
  import opened GameTypes
  import PetData

  function MinReal(a: real, b: real): real
  {
    if a <= b then a else b
  }

  function MaxReal(a: real, b: real): real
  {
    if a >= b then a else b
  }

  /** The higher of two ranks on bronze < gold < diamond < neon. */
  function BetterRank(current: Rank, achieved: Rank): (r: Rank)
    ensures Level(r) >= Level(current) && Level(r) >= Level(achieved)
    ensures r == current || r == achieved
  {
    if Level(achieved) > Level(current) then achieved else current
  }

  /** Merging ranks is idempotent, commutative and associative. */
  lemma BetterRankLaws(a: Rank, b: Rank, c: Rank)
    ensures BetterRank(a, a) == a
    ensures BetterRank(a, b) == BetterRank(b, a)
    ensures BetterRank(BetterRank(a, b), b) == BetterRank(a, b)
    ensures BetterRank(BetterRank(a, b), c) == BetterRank(a, BetterRank(b, c))
  {
  }

  /** The rank a correct answer earns (`newRank || 'bronze'`). */
  function AchievedRank(timeMs: int): Rank
  {
    PetData.CalculateRank(timeMs, true).GetOr(Bronze)
  }

  /** Coins a correct feeding pays. */
  function FeedReward(r: Rank): nat
  {
    match r
    case Neon => 50
    case Diamond => 30
    case Gold => 15
    case Bronze => 5
  }

  /** Coins a correct mining answer pays. */
  function MineReward(r: Rank): nat
  {
    match r
    case Neon => 25
    case Diamond => 15
    case Gold => 8
    case Bronze => 3
  }

  /** The same pet, possibly with new progress: identity, name, emoji and fact are kept. */
  predicate SamePet(p: Pet, q: Pet)
  {
    q.id == p.id && q.name == p.name && q.emoji == p.emoji && q.fact == p.fact
  }

  /** A pet after one feeding answer. */
  function FedPet(p: Pet, correct: bool, timeMs: int, now: int): (q: Pet)
    ensures SamePet(p, q)
    ensures q.totalAttempts == p.totalAttempts + 1
    ensures Level(q.rank) >= Level(p.rank)
    ensures ValidPet(p) ==> ValidPet(q)
  {
    if correct then
      var achieved := AchievedRank(timeMs);
      p.(hunger := MinReal(100.0, p.hunger + 40.0),
         lastFed := now,
         stability := MinReal(7.0, p.stability + (if achieved == Neon then 1.0 else 0.5)),
         correctStreak := p.correctStreak + 1,
         totalAttempts := p.totalAttempts + 1,
         fastCorrects := if timeMs < 3000 then p.fastCorrects + 1 else p.fastCorrects,
         rank := BetterRank(p.rank, achieved))
    else
      p.(hunger := MaxReal(0.0, p.hunger - 10.0),
         correctStreak := 0,
         totalAttempts := p.totalAttempts + 1,
         stability := MaxReal(0.5, p.stability - 0.5))
  }

  /** A pet after one mining answer: drilled, not fed. */
  function MinedPet(p: Pet, correct: bool, timeMs: int): (q: Pet)
    ensures SamePet(p, q)
    ensures q.hunger == p.hunger && q.stability == p.stability && q.lastFed == p.lastFed
    ensures q.totalAttempts == p.totalAttempts + 1
    ensures Level(q.rank) >= Level(p.rank)
    ensures ValidPet(p) ==> ValidPet(q)
  {
    if correct then
      p.(correctStreak := p.correctStreak + 1,
         totalAttempts := p.totalAttempts + 1,
         fastCorrects := if timeMs < 3000 then p.fastCorrects + 1 else p.fastCorrects,
         rank := BetterRank(p.rank, AchievedRank(timeMs)))
    else
      p.(correctStreak := 0,
         totalAttempts := p.totalAttempts + 1)
  }

  /** Some pet in the roster has this id (`allPets.find`). */
  predicate HasPet(s: GameState, petId: string)
  {
    exists i :: 0 <= i < |s.allPets| && s.allPets[i].id == petId
  }

  /** Applies `f` to every pet with the given id (`allPets.map`). */
  function UpdatePets(pets: seq<Pet>, petId: string, f: Pet -> Pet): seq<Pet>
  {
    seq(|pets|, i requires 0 <= i < |pets| => if pets[i].id == petId then f(pets[i]) else pets[i])
  }

  /** `t` is a later version of `s`: the same roster, each pet at least as
      highly ranked, and at least as many coins. */
  predicate Progressed(s: GameState, t: GameState)
  {
    && |t.allPets| == |s.allPets|
    && t.coins >= s.coins
    && forall i :: 0 <= i < |s.allPets| ==>
         SamePet(s.allPets[i], t.allPets[i]) && Level(t.allPets[i].rank) >= Level(s.allPets[i].rank)
  }

  lemma ProgressedTransitive(s: GameState, t: GameState, u: GameState)
    requires Progressed(s, t) && Progressed(t, u)
    ensures Progressed(s, u)
  {
  }

  /** Records a feeding answer for the pet with id `petId`. */
  function FeedPet(s: GameState, petId: string, correct: bool, timeMs: int, now: int): (r: GameState)
    ensures !HasPet(s, petId) ==> r == s
    ensures HasPet(s, petId) ==>
      r.coins == s.coins + (if correct then FeedReward(AchievedRank(timeMs)) else 0)
    ensures r.equippedPets == s.equippedPets && r.currentZone == s.currentZone
    ensures |r.allPets| == |s.allPets|
    ensures forall i :: 0 <= i < |s.allPets| && s.allPets[i].id != petId ==> r.allPets[i] == s.allPets[i]
    ensures ValidState(s) ==> ValidState(r)
    ensures Progressed(s, r)
  {
    if !HasPet(s, petId) then s
    else
      var coinsEarned := if correct then FeedReward(AchievedRank(timeMs)) else 0;
      s.(coins := s.coins + coinsEarned,
         allPets := UpdatePets(s.allPets, petId, p => FedPet(p, correct, timeMs, now)))
  }

  /** A correct feeding changes the pet exactly as follows and pays by rank. */
  lemma FeedCorrect(s: GameState, petId: string, timeMs: int, now: int, i: nat)
    requires i < |s.allPets| && s.allPets[i].id == petId
    ensures var p, q := s.allPets[i], FeedPet(s, petId, true, timeMs, now).allPets[i];
      && q.hunger == MinReal(100.0, p.hunger + 40.0)
      && q.stability == MinReal(7.0, p.stability + (if AchievedRank(timeMs) == Neon then 1.0 else 0.5))
      && q.correctStreak == p.correctStreak + 1
      && q.totalAttempts == p.totalAttempts + 1
      && q.fastCorrects == p.fastCorrects + (if timeMs < 3000 then 1 else 0)
      && q.rank == BetterRank(p.rank, AchievedRank(timeMs))
      && q.lastFed == now
      && SamePet(p, q)
    ensures FeedPet(s, petId, true, timeMs, now).coins == s.coins + FeedReward(AchievedRank(timeMs))
  {
  }

  /** A wrong feeding starves the pet a little, breaks its streak, pays nothing. */
  lemma FeedIncorrect(s: GameState, petId: string, timeMs: int, now: int, i: nat)
    requires i < |s.allPets| && s.allPets[i].id == petId
    ensures var p, q := s.allPets[i], FeedPet(s, petId, false, timeMs, now).allPets[i];
      && q.hunger == MaxReal(0.0, p.hunger - 10.0)
      && q.stability == MaxReal(0.5, p.stability - 0.5)
      && q.correctStreak == 0
      && q.totalAttempts == p.totalAttempts + 1
      && q.fastCorrects == p.fastCorrects
      && q.rank == p.rank
      && q.lastFed == p.lastFed
      && SamePet(p, q)
    ensures FeedPet(s, petId, false, timeMs, now).coins == s.coins
  {
  }

  /** A fresh pet fed correctly in 1.5 s, then wrongly in 4 s. */
  lemma FeedScenario(p: Pet, coins: int, zone: string)
    requires p.hunger == 80.0 && p.stability == 1.0 && p.rank == Bronze
    requires p.correctStreak == 0 && p.totalAttempts == 0 && p.fastCorrects == 0
    ensures var s0 := GameState(coins, [], [p], zone);
      var s1 := FeedPet(s0, p.id, true, 1500, 0);
      var s2 := FeedPet(s1, p.id, false, 4000, 0);
      && s1.allPets[0].hunger == 100.0 && s1.allPets[0].stability == 2.0
      && s1.allPets[0].correctStreak == 1 && s1.allPets[0].fastCorrects == 1
      && s1.allPets[0].rank == Neon && s1.coins == coins + 50
      && s2.allPets[0].hunger == 90.0 && s2.allPets[0].stability == 1.5
      && s2.allPets[0].correctStreak == 0 && s2.allPets[0].totalAttempts == 2
      && s2.allPets[0].rank == Neon && s2.coins == s1.coins
  {
    var s0 := GameState(coins, [], [p], zone);
    assert s0.allPets[0].id == p.id;
    var s1 := FeedPet(s0, p.id, true, 1500, 0);
    assert s1.allPets[0].id == p.id;
  }

  /** Records a mining answer; returns the new state and the coins it credited. */
  function MineBlock(s: GameState, petId: string, correct: bool, timeMs: int): (r: (GameState, int))
    ensures r.1 == (if correct then MineReward(AchievedRank(timeMs)) else 0)
    ensures r.0.coins == s.coins + r.1
    ensures r.0.equippedPets == s.equippedPets && r.0.currentZone == s.currentZone
    ensures |r.0.allPets| == |s.allPets|
    ensures forall i :: 0 <= i < |s.allPets| ==>
      && r.0.allPets[i].hunger == s.allPets[i].hunger
      && r.0.allPets[i].stability == s.allPets[i].stability
      && r.0.allPets[i].lastFed == s.allPets[i].lastFed
    ensures forall i :: 0 <= i < |s.allPets| && s.allPets[i].id != petId ==> r.0.allPets[i] == s.allPets[i]
    ensures !HasPet(s, petId) ==> r.0.allPets == s.allPets
    ensures ValidState(s) ==> ValidState(r.0)
    ensures Progressed(s, r.0)
  {
    var coinsEarned := if correct then MineReward(AchievedRank(timeMs)) else 0;
    var pets := UpdatePets(s.allPets, petId, p => MinedPet(p, correct, timeMs));
    assert !HasPet(s, petId) ==> pets == s.allPets;
    (s.(coins := s.coins + coinsEarned, allPets := pets), coinsEarned)
  }

  /** A correct mining answer drills the pet: streak, attempts, fast answers and rank. */
  lemma MineCorrect(s: GameState, petId: string, timeMs: int, i: nat)
    requires i < |s.allPets| && s.allPets[i].id == petId
    ensures var p, q := s.allPets[i], MineBlock(s, petId, true, timeMs).0.allPets[i];
      && q.correctStreak == p.correctStreak + 1
      && q.totalAttempts == p.totalAttempts + 1
      && q.fastCorrects == p.fastCorrects + (if timeMs < 3000 then 1 else 0)
      && q.rank == BetterRank(p.rank, AchievedRank(timeMs))
      && q == p.(correctStreak := q.correctStreak, totalAttempts := q.totalAttempts,
                 fastCorrects := q.fastCorrects, rank := q.rank)
  {
  }

  /** A wrong mining answer only breaks the streak and counts the attempt. */
  lemma MineIncorrect(s: GameState, petId: string, timeMs: int, i: nat)
    requires i < |s.allPets| && s.allPets[i].id == petId
    ensures var p := s.allPets[i];
      MineBlock(s, petId, false, timeMs).0.allPets[i]
        == p.(correctStreak := 0, totalAttempts := p.totalAttempts + 1)
  {
  }

  /** Equips the pet if it is not equipped and there is room, unequips it if it is. */
  function ToggleEquipPet(s: GameState, petId: string): (r: GameState)
    ensures r.coins == s.coins && r.allPets == s.allPets && r.currentZone == s.currentZone
    ensures forall x :: x != petId ==> (x in r.equippedPets <==> x in s.equippedPets)
    ensures Distinct(s.equippedPets) ==> forall k :: 0 <= k < |s.equippedPets| && s.equippedPets[k] == petId ==>
      r.equippedPets == s.equippedPets[..k] + s.equippedPets[k + 1..]
    ensures petId in r.equippedPets <==> petId !in s.equippedPets && |s.equippedPets| < MaxEquipped
    ensures petId !in s.equippedPets && |s.equippedPets| < MaxEquipped ==>
      r.equippedPets == s.equippedPets + [petId]
    ensures petId !in s.equippedPets && |s.equippedPets| >= MaxEquipped ==> r == s
    ensures ValidState(s) ==> ValidState(r)
    ensures Progressed(s, r)
  {
    if petId in s.equippedPets then
      var keep := (x: string) => x != petId;
      var rest := Filter(s.equippedPets, keep);
      assert Distinct(s.equippedPets) ==> forall k :: 0 <= k < |s.equippedPets| && s.equippedPets[k] == petId ==>
        rest == s.equippedPets[..k] + s.equippedPets[k + 1..] by {
        forall k | Distinct(s.equippedPets) && 0 <= k < |s.equippedPets| && s.equippedPets[k] == petId
          ensures rest == s.equippedPets[..k] + s.equippedPets[k + 1..]
        {
          FilterRemoveAt(s.equippedPets, k, keep);
        }
      }
      assert Distinct(s.equippedPets) ==> Distinct(rest) by {
        if Distinct(s.equippedPets) {
          FilterDistinct(s.equippedPets, keep);
        }
      }
      s.(equippedPets := rest)
    else if |s.equippedPets| < MaxEquipped then
      s.(equippedPets := s.equippedPets + [petId])
    else
      s
  }

  /** Equipping an absent pet and then toggling it again restores the list. */
  lemma {:induction false} ToggleOnOff(s: GameState, petId: string)
    requires petId !in s.equippedPets && |s.equippedPets| < MaxEquipped
    ensures ToggleEquipPet(ToggleEquipPet(s, petId), petId) == s
  {
    var keep := (x: string) => x != petId;
    FilterAppend(s.equippedPets, [petId], keep);
    FilterKeepsAll(s.equippedPets, keep);
    assert Filter([petId], keep) == [];
  }

  /** Toggling four distinct pets on an empty list equips only the first three. */
  lemma ToggleFour(s: GameState, a: string, b: string, c: string, d: string)
    requires s.equippedPets == []
    requires Distinct([a, b, c, d])
    ensures ToggleEquipPet(ToggleEquipPet(ToggleEquipPet(ToggleEquipPet(s, a), b), c), d).equippedPets
      == [a, b, c]
  {
    var ids := [a, b, c, d];
    assert ids[0] != ids[1] && ids[0] != ids[2] && ids[1] != ids[2];
    assert ids[3] != ids[0] && ids[3] != ids[1] && ids[3] != ids[2];
    var s1 := ToggleEquipPet(s, a);
    assert s1.equippedPets == [a];
    var s2 := ToggleEquipPet(s1, b);
    assert s2.equippedPets == [a, b];
    var s3 := ToggleEquipPet(s2, c);
    assert s3.equippedPets == [a, b, c];
  }

  /** Hunger lost per tick: at least 1, more for less stable pets. */
  function DecayAmount(stability: real): real
  {
    MaxReal(1.0, 5.0 - stability)
  }

  lemma DecayAmountBounds(stability: real)
    ensures DecayAmount(7.0) == 1.0 && DecayAmount(1.0) == 4.0
    ensures 0.5 <= stability <= 7.0 ==> 1.0 <= DecayAmount(stability) <= 4.5
    ensures stability >= 4.0 ==> DecayAmount(stability) == 1.0
  {
  }

  /** One 30-second decay tick over every pet. */
  function DecayTick(s: GameState): (r: GameState)
    ensures r.coins == s.coins && r.equippedPets == s.equippedPets && r.currentZone == s.currentZone
    ensures |r.allPets| == |s.allPets|
    ensures forall i :: 0 <= i < |s.allPets| ==>
      && r.allPets[i] == s.allPets[i].(hunger := r.allPets[i].hunger)
      && r.allPets[i].hunger == MaxReal(0.0, s.allPets[i].hunger - DecayAmount(s.allPets[i].stability))
    ensures forall i :: 0 <= i < |s.allPets| && s.allPets[i].hunger > 0.0 ==>
      r.allPets[i].hunger < s.allPets[i].hunger
    ensures ValidState(s) ==> ValidState(r)
    ensures Progressed(s, r)
  {
    s.(allPets := seq(|s.allPets|, i requires 0 <= i < |s.allPets| =>
      s.allPets[i].(hunger := MaxReal(0.0, s.allPets[i].hunger - DecayAmount(s.allPets[i].stability)))))
  }

  const StartingCoins: int := 100
  const StartingZone: string := "Multiplication Meadow"

  /** The state of a new game: 100 coins, nothing equipped, the eight starter pets. */
  function InitialState(rolls: seq<PetData.PetRoll>, now: int): (s: GameState)
    requires |rolls| == |PetData.StarterOperands|
    requires forall i :: 0 <= i < |rolls| ==> PetData.ValidRoll(rolls[i], now)
    ensures s.coins == 100 && s.equippedPets == [] && s.currentZone == "Multiplication Meadow"
    ensures |s.allPets| == 8
    ensures forall i :: 0 <= i < 8 ==> s.allPets[i].rank == Bronze
    ensures forall i :: 0 <= i < 8 ==>
      && s.allPets[i].fact.operation == Multiply
      && s.allPets[i].fact.num1 == PetData.StarterOperands[i].0
      && s.allPets[i].fact.num2 == PetData.StarterOperands[i].1
    ensures forall i, j :: 0 <= i < j < 8 ==> s.allPets[i].id != s.allPets[j].id
    ensures ValidState(s)
  {
    GameState(StartingCoins, [], PetData.GenerateStarterPets(rolls, now), StartingZone)
  }

  /** Pets with hunger below 50, in roster order. */
  function HungryPets(s: GameState): (r: seq<Pet>)
    ensures forall p :: p in r <==> p in s.allPets && IsHungry(p)
    ensures |r| <= |s.allPets|
  {
    Filter(s.allPets, IsHungry)
  }

  /** Whether a pet's id is in `ids`. */
  function HasIdIn(ids: seq<string>): Pet -> bool
  {
    (p: Pet) => p.id in ids
  }

  /** The pets whose id is listed, in roster order rather than list order. */
  function PetsWithIds(pets: seq<Pet>, ids: seq<string>): (r: seq<Pet>)
    ensures forall p :: p in r <==> p in pets && p.id in ids
    ensures |r| <= |pets|
  {
    Filter(pets, HasIdIn(ids))
  }

  /** The equipped pets, in roster order. */
  function EquippedPets(s: GameState): (r: seq<Pet>)
    ensures forall p :: p in r <==> p in s.allPets && p.id in s.equippedPets
    ensures |r| <= |s.allPets|
  {
    PetsWithIds(s.allPets, s.equippedPets)
  }

  /** The pets with listed ids keep roster order: the selection
      distributes over a split of the roster, and a one-pet roster keeps
      its pet exactly when the pet's id is listed. */
  lemma PetsWithIdsOrder(a: seq<Pet>, b: seq<Pet>, ids: seq<string>, p: Pet)
    ensures PetsWithIds(a + b, ids) == PetsWithIds(a, ids) + PetsWithIds(b, ids)
    ensures PetsWithIds([p], ids) == if p.id in ids then [p] else []
  {
    FilterAppend(a, b, HasIdIn(ids));
    FilterSingleton(p, HasIdIn(ids));
  }

  /** The equipped view keeps roster order, whatever the equip order. */
  lemma EquippedPetsOrder(coins: int, ids: seq<string>, a: seq<Pet>, b: seq<Pet>, zone: string, p: Pet)
    ensures EquippedPets(GameState(coins, ids, a + b, zone))
      == EquippedPets(GameState(coins, ids, a, zone)) + EquippedPets(GameState(coins, ids, b, zone))
    ensures EquippedPets(GameState(coins, ids, [p], zone)) == if p.id in ids then [p] else []
  {
    PetsWithIdsOrder(a, b, ids, p);
  }

  /** The hungry view keeps roster order in the same way. */
  lemma HungryPetsOrder(coins: int, ids: seq<string>, a: seq<Pet>, b: seq<Pet>, zone: string, p: Pet)
    ensures HungryPets(GameState(coins, ids, a + b, zone))
      == HungryPets(GameState(coins, ids, a, zone)) + HungryPets(GameState(coins, ids, b, zone))
    ensures HungryPets(GameState(coins, ids, [p], zone)) == if IsHungry(p) then [p] else []
  {
    FilterAppend(a, b, IsHungry);
    FilterSingleton(p, IsHungry);
  }

  /** The equipped view follows the roster, whatever the equip order. */
  lemma EquippedViewFollowsRoster(a: Pet, b: Pet, zone: string)
    requires a.id == "a" && b.id == "b"
    ensures EquippedPets(GameState(0, ["b", "a"], [a, b], zone)) == [a, b]
  {
    var s := GameState(0, ["b", "a"], [a, b], zone);
    assert [a, b][1..] == [b];
    assert [b][1..] == [];
  }

  /** An entry point the presentation layer may call. */
  datatype Event =
    | Feed(petId: string, correct: bool, timeMs: int, now: int)
    | Mine(petId: string, correct: bool, timeMs: int)
    | ToggleEquip(petId: string)
    | Tick

  function Step(s: GameState, e: Event): (r: GameState)
    ensures ValidState(s) ==> ValidState(r)
    ensures Progressed(s, r)
  {
    match e
    case Feed(id, correct, timeMs, now) => FeedPet(s, id, correct, timeMs, now)
    case Mine(id, correct, timeMs) => MineBlock(s, id, correct, timeMs).0
    case ToggleEquip(id) => ToggleEquipPet(s, id)
    case Tick => DecayTick(s)
  }

  function Run(s: GameState, events: seq<Event>): GameState
    decreases |events|
  {
    if |events| == 0 then s else Run(Step(s, events[0]), events[1..])
  }

  /** Over any sequence of entry-point calls the invariants hold after every
      call, no pet's rank goes down and the wallet never shrinks. */
  lemma {:induction false} RunPreservesInvariants(s: GameState, events: seq<Event>)
    requires ValidState(s)
    ensures ValidState(Run(s, events))
    ensures Progressed(s, Run(s, events))
    decreases |events|
  {
    if |events| > 0 {
      var t := Step(s, events[0]);
      RunPreservesInvariants(t, events[1..]);
      ProgressedTransitive(s, t, Run(t, events[1..]));
    }
  }
}
