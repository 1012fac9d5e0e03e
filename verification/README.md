# Math pet progression engine — a Dafny model

This project models the progression core of a times-table pet game. Each
pet stands for one multiplication (or division) fact. Answering the fact
correctly feeds the pet, grows its stability, raises its best rank by answer
speed (bronze, gold, diamond, neon) and pays coins; a wrong answer lowers
hunger and stability and resets the streak. Hunger decays on a timer, faster
for pets with low stability. Up to three pets are equipped for the mine,
where correct answers chip blocks and collect gems. The pen, collection and
leaderboard screens order and filter the roster.

Modules, following the source layout:

- `GameTypes` (`types.dfy`): ranks, families, facts, pets, the game state and
  their validity invariants.
- `PetData` (`pets.dfy`): fact and pet construction, the starter roster,
  rank classification and distractor generation.
- `GameEngine` (`game_state.dfy`): feeding, mining, equipping, hunger
  decay, the initial state, the derived views and event replay.
- `AnswerBubbles`, `MathMine`, `PetPen`, `PetCollection`, `Leaderboard`: the
  logic inside the screens of the same names.
- `Optional`, `Strings`, `Sequences`: the option type, decimal rendering
  and parsing of naturals, and a stable filter and insertion sort with their
  laws.

Randomness (`Math.random`) and the clock (`Date.now`, `new Date()`) are
parameters: a `PetRoll` carries the hunger roll and feeding time of a new pet,
distractor offsets are a sequence of rolls in `[0, 20)`, shuffle picks and gem
rolls are explicit naturals, and `now` is an integer millisecond timestamp.
Hunger and stability are `real`, because the source adds and subtracts
halves. JavaScript's `Array.prototype.sort` takes a comparator. It is modelled
as a stable insertion sort with the relation "comparator result is negative".

## Model

| member | source | states |
|---|---|---|
| PetData.GetFamily | src/data/pets.ts:16-22 | operands 2..10 map to their own family and every other number maps to fives; the result is never the division family |
| PetData.CreateMathFact | src/data/pets.ts:35-44 | the fact keeps its operation and operands; a product answer for multiply, an exact quotient (answer times divisor is the dividend) for divide; the family is division exactly for divide, otherwise the family of the smaller operand; the id parses back to operation and operands |
| PetData.FactIdRoundTrip | src/data/pets.ts:38 | parsing the `operation-num1-num2` id recovers the operation and both operands |
| PetData.ParseFactIdCanonical | src/data/pets.ts:38 | the converse of the round trip: a string that parses as a fact id is exactly the id `operation-num1-num2` of the key it parses to, so operands with leading zeros or empty operands are rejected |
| PetData.FactIdInjective | src/data/pets.ts:38 | different (operation, num1, num2) triples get different ids |
| PetData.PetIdInjective | src/data/pets.ts:49 | pets built from facts with different ids get different pet ids |
| PetData.CreatePet | src/data/pets.ts:47-61 | a new pet has id `pet-` plus the fact id, rank bronze, stability 1, zero counters, a whole-number hunger in [20, 79], a feeding time within the last day, and satisfies the pet invariant |
| PetData.StarterPetIdsDistinct | src/data/pets.ts:63-76 | starter pets built from different starter operand pairs get different pet ids |
| PetData.GenerateStarterPets | src/data/pets.ts:63-76 | eight valid bronze multiplication pets with the listed operand pairs, in order, with pairwise distinct ids |
| PetData.CalculateRank | src/data/pets.ts:78-84 | no rank exactly for a wrong answer; a correct one is neon iff under 2000 ms, diamond iff in [2000, 3000), gold iff in [3000, 5000), bronze iff at least 5000 |
| PetData.CalculateRankAntitone | src/data/pets.ts:78-84 | a faster correct answer never earns a lower rank |
| PetData.FastIffDiamondOrBetter | src/data/pets.ts:80-81 | an answer under 3000 ms (the fast-answer threshold) is exactly one ranked diamond or neon |
| PetData.Accepted | src/data/pets.ts:86-96 | the candidates the draw loop keeps are distinct, positive, differ from the answer and lie within answer-10 .. answer+9 |
| PetData.GenerateWrongAnswers | src/data/pets.ts:86-96 | succeeds iff the rolls yield at least `count` accepted candidates, and then returns exactly the first `count` of them in draw order: distinct, positive, not the answer, within the offset window |
| GameEngine.BetterRank | src/hooks/useGameState.ts:183-186 | the result is one of the two ranks and at least as high as both |
| GameEngine.BetterRankLaws | src/hooks/useGameState.ts:183-186 | keeping the better rank is commutative, idempotent and associative |
| GameEngine.FedPet | src/hooks/useGameState.ts:80-106 | feeding keeps the pet's identity and fact, counts one more attempt, never lowers its rank and keeps the pet invariant |
| GameEngine.FeedPet | src/hooks/useGameState.ts:69-110 | an unknown id leaves the state unchanged; otherwise coins rise by the rank reward for a correct answer and by nothing for a wrong one; the equip list and zone are untouched; only the fed pet changes; validity is preserved and no rank or coin total goes down |
| GameEngine.FeedCorrect | src/hooks/useGameState.ts:83-97 | a correct answer adds 40 hunger capped at 100, sets lastFed to now, adds 1 stability for neon or 0.5 otherwise capped at 7, increments the streak, increments fast answers iff under 3000 ms, and keeps the better rank |
| GameEngine.FeedIncorrect | src/hooks/useGameState.ts:98-106 | a wrong answer subtracts 10 hunger floored at 0, subtracts 0.5 stability floored at 0.5, resets the streak, and leaves rank, fast answers and lastFed alone |
| GameEngine.FeedScenario | src/hooks/useGameState.ts:69-110 | hunger 80 and stability 1 fed a correct 1500 ms answer reach 100, 2, neon and +50 coins; a following wrong answer gives 90 and 1.5 |
| GameEngine.MinedPet | src/hooks/useGameState.ts:142-163 | a mining answer keeps hunger, stability and lastFed, counts one more attempt, never lowers rank and keeps the pet invariant |
| GameEngine.MineBlock | src/hooks/useGameState.ts:130-168 | the payout is the rank reward for a correct answer and 0 otherwise, and coins rise by it; no pet's hunger, stability or lastFed changes; pets with other ids are untouched; an unknown id changes no pet; validity is preserved and no rank goes down |
| GameEngine.MineCorrect | src/hooks/useGameState.ts:145-155 | a correct mining answer increments streak and attempts, increments fast answers iff under 3000 ms, and keeps the better rank |
| GameEngine.MineIncorrect | src/hooks/useGameState.ts:156-162 | a wrong mining answer resets the streak, counts the attempt and changes nothing else about the pet |
| GameEngine.ToggleEquipPet | src/hooks/useGameState.ts:112-127 | an equipped id is removed, and on a distinct list the other ids keep their positions (the result is the list with that one entry cut out); an unequipped id is appended when fewer than three are equipped; otherwise the state is unchanged; the list stays distinct and at most three long |
| GameEngine.ToggleOnOff | src/hooks/useGameState.ts:112-127 | equipping an absent id with room and toggling it again restores the original equip list |
| GameEngine.ToggleFour | src/hooks/useGameState.ts:120-126 | from an empty list, toggling four distinct ids equips the first three and refuses the fourth |
| GameEngine.DecayAmountBounds | src/hooks/useGameState.ts:57 | a valid stability gives a decay step between 1 and 4.5; stability 4 or more gives the minimum step of 1, and the starting stability 1 gives 4 |
| GameEngine.DecayTick | src/hooks/useGameState.ts:52-63 | each pet's hunger drops by max(1, 5 - stability) floored at 0 and nothing else changes; a pet with hunger above 0 strictly loses hunger; validity is preserved |
| GameEngine.InitialState | src/hooks/useGameState.ts:37-42 | a fresh game has 100 coins, no equipped pets, the eight bronze starter pets (the listed multiplication operand pairs, in order, with distinct ids) and the zone "Multiplication Meadow", and is valid |
| GameEngine.HungryPets | src/hooks/useGameState.ts:170 | the hungry view holds exactly the roster pets with hunger below 50 and is no longer than the roster |
| GameEngine.EquippedPets | src/hooks/useGameState.ts:171 | the equipped view holds exactly the roster pets whose id is in the equip list and is no longer than the roster |
| GameEngine.HungryPetsOrder | src/hooks/useGameState.ts:170 | the hungry view keeps roster order: it distributes over any split of the roster, and a one-pet roster shows its pet iff the pet is hungry |
| GameEngine.PetsWithIdsOrder | src/hooks/useGameState.ts:171 | selecting pets by id keeps roster order: it distributes over any split of the roster, and a one-pet roster keeps its pet iff its id is listed |
| GameEngine.EquippedPetsOrder | src/hooks/useGameState.ts:171 | the equipped view keeps roster order whatever the equip order: it distributes over any split of the roster, and a one-pet roster shows its pet iff its id is equipped |
| GameEngine.EquippedViewFollowsRoster | src/hooks/useGameState.ts:171 | with roster [a, b] and equip list [b, a] the view is [a, b]: it follows roster order, not equip order |
| GameEngine.RunPreservesInvariants | src/hooks/useGameState.ts:52-168 | any sequence of feeds, mining answers, equip toggles and decay ticks from a valid state keeps it valid, and never lowers coins or any pet's rank |
| AnswerBubbles.Shuffle | src/components/game/AnswerBubbles.tsx:30-33 | the Fisher-Yates pass returns a permutation of its input, so distinct options stay distinct |
| AnswerBubbles.PrepareOptions | src/components/game/AnswerBubbles.tsx:26-35 | when three distractors are found: the options are a rearrangement of the first three accepted distractor draws plus the answer; four distinct options holding the answer exactly once at exactly one position, all others positive and within the offset window |
| AnswerBubbles.HandleAnswer | src/components/game/AnswerBubbles.tsx:37-39 | a tap is judged correct iff it equals the fact's answer, and its time is the elapsed time since the question appeared |
| MathMine.BlockIdInjective | src/components/game/MathMine.tsx:32 | different block indices give different block ids |
| MathMine.InitialMine | src/components/game/MathMine.tsx:27-41 | nine blocks `block-0` .. `block-8`, each with 3 of 3 hit points and 10..59 gems, nothing selected, no gems collected, and a valid mine |
| MathMine.TapBlock | src/components/game/MathMine.tsx:43-49 | with no equipped pet or a broken block nothing happens; otherwise the block and one of the equipped pets are selected and the grid is untouched |
| MathMine.MineAnswer | src/components/game/MathMine.tsx:51-82 | without a selection nothing happens; otherwise the answer is recorded through the engine's mining update, the selected block loses one hit point iff the answer is correct, the selection is cleared and the mine stays valid |
| MathMine.MineAnswerGems | src/components/game/MathMine.tsx:59-63 | a correct answer adds the block's gems exactly when it takes the block's last hit point |
| MathMine.Respawn | src/components/game/MathMine.tsx:65-71 | the broken block regains full hit points and new gems; every other block and the selection are unchanged |
| MathMine.CloseOverlay | src/components/game/MathMine.tsx:166 | closing the question clears the selection and keeps the grid and gem count |
| PetPen.HungryList | src/components/game/PetPen.tsx:15 | the hungry section holds exactly the pets with hunger below 50, each as often as in the roster, sorted by ascending hunger |
| PetPen.SatisfiedList | src/components/game/PetPen.tsx:16 | the satisfied section holds exactly the pets with hunger at least 50 |
| PetPen.SatisfiedListOrder | src/components/game/PetPen.tsx:16 | the satisfied section keeps roster order: it distributes over any split of the roster, and a one-pet roster shows its pet iff its hunger is at least 50 |
| PetPen.PenPartition | src/components/game/PetPen.tsx:15-16 | the two sections together are a rearrangement of the roster |
| PetPen.PenCard | src/components/game/PetPen.tsx:37-46 | every card shows a roster pet; it is drawn hungry iff hunger is below 50, and shows the problem iff hungry with hunger below 30 |
| PetPen.PenAnswer | src/components/game/PetPen.tsx:18-23 | with no pet selected nothing changes; otherwise the answer is a feeding of the selected pet, coins rise iff the answer is right, and validity is preserved |
| PetCollection.DisplayIndexReversesLevel | src/components/game/PetCollection.tsx:11 | the display order of ranks is the reverse of their progression order |
| PetCollection.SortedCollection | src/components/game/PetCollection.tsx:14-18 | the grid is a rearrangement of the roster, higher ranks first, and within a rank longer streaks first |
| PetCollection.TierCountsSum | src/components/game/PetCollection.tsx:20-26 | the four tier counts add up to the total |
| PetCollection.EquippedSection | src/components/game/PetCollection.tsx:50 | the equipped section holds exactly the roster pets whose id is equipped |
| PetCollection.EquippedSectionOrder | src/components/game/PetCollection.tsx:50 | the equipped section keeps the order of the pet list: it distributes over any split of the list, and a one-pet list shows its pet iff its id is equipped |
| Leaderboard.Ranking | src/components/game/Leaderboard.tsx:16-25 | at most ten pets (all when fewer), drawn from the roster without repetition, best first, and no pet left off outranks one on the board |
| Leaderboard.RankingOrder | src/components/game/Leaderboard.tsx:19-24 | the board is ordered by rank (neon first), then by streak, then by fast answers |
| Leaderboard.PodiumAndRest | src/components/game/Leaderboard.tsx:27-28 | the podium is the first three places, the list is the remainder, and each list entry's number is its place on the board |

## Left out

- Persistence (`loadGame`, `saveGame` and the auto-save effect) is local-storage I/O. The model always starts from `InitialState`.
- Timers are replaced by explicit events. The 30-second decay interval becomes a `Tick` event, and the 1-second respawn and the feedback delays of the pen and the mine become separate calls or are dropped.
- React state-updater semantics (batched updates, stale closures) are not modelled. Each handler is a pure function of the state it is given.
- The pet name and emoji templates are left out; the chosen base name and emoji are supplied in `PetRoll`. The name format (`num1×num2 base`) is kept.
- The `AnswerResult` type is declared in the source but never used.
- Rendering, styling, animations, the HUD, the navigation bar, the main menu and screen switching are left out. So are the block x/y layout coordinates, which are stored but never proved about.
- PetData.CreateMathFact: requires a divisor that divides the dividend. A non-integer quotient would be a JavaScript float, which this model does not represent.
- PetData.CreateMathFact: operands are natural numbers. Negative or fractional operands never occur in the game.
- PetData.GenerateWrongAnswers: returns `None` when the finite roll sequence runs out before `count` candidates are accepted. The source keeps drawing forever.
- Sequences.Sort: its result is proved sorted and a permutation of the input, but stability is not proved.
- PetCollection.TierCounts and Leaderboard.Podium carry no contract of their own. Their meaning is stated by `PetCollection.TierCountsSum` and `Leaderboard.PodiumAndRest`.

## Notes on the code

- Distractor offsets are `floor(random * 20) - 10`, so they lie in the asymmetric window [-10, 9] around the answer.
- `mineBlock` computes its payout before looking for the pet, so an unknown pet id still earns coins for a correct answer. `GameEngine.MineBlock` models this.
- The comment on starting hunger in `createPet` says 20-80, but `floor(random * 60) + 20` gives whole numbers in [20, 79].
- Stability moves in steps of 0.5, and a decay tick subtracts `max(1, 5 - stability)`, so hunger can reach values ending in .5.
- `toggleEquipPet` does not check that the id belongs to a roster pet. The equip list may therefore hold ids that no pet has, and the equipped views skip them.
