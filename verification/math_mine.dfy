/** The mine screen (`src/components/game/MathMine.tsx`): a grid of
    blocks with hit points and gems. A tap picks a block and an equipped
    pet, the pet's answer is recorded as a mining answer, and a correct
    one chips the block. The random gem amounts and the random pet pick
    are parameters; the delayed respawn is an explicit operation. */
module MathMine {
  import opened Optional
  import opened Strings
  import opened GameTypes
  import GameEngine

  datatype Block = Block(id: string, hp: int, maxHp: int, gems: int, x: int, y: int)

  /** The screen state: the blocks, the tapped block and the pet asked to
      answer (both cleared after an answer), and the gem counter. */
  datatype Mine = Mine(blocks: seq<Block>, selected: Option<Block>, activePet: Option<Pet>, gemsCollected: int)

  const BlockCount: nat := 9
  const BlockHp: int := 3

  function BlockId(i: nat): string
  {
    "block-" + NatToString(i)
  }

  lemma BlockIdInjective(i: nat, j: nat)
    requires BlockId(i) == BlockId(j)
    ensures i == j
  {
    assert NatToString(i) == BlockId(i)[6..];
    assert NatToString(j) == BlockId(j)[6..];
    NatToStringInjective(i, j);
  }

  /** Blocks have distinct ids, hit points in [0, maxHp] with maxHp = 3 and
      gems in [10, 59]; a selected block is on the grid and still standing,
      and a block is selected exactly when a pet is asked to answer. */
  predicate ValidMine(m: Mine)
  {
    && (forall i :: 0 <= i < |m.blocks| ==>
          && m.blocks[i].maxHp == BlockHp
          && 0 <= m.blocks[i].hp <= m.blocks[i].maxHp
          && 10 <= m.blocks[i].gems <= 59)
    && (forall i, j :: 0 <= i < j < |m.blocks| ==> m.blocks[i].id != m.blocks[j].id)
    && m.gemsCollected >= 0
    && (m.selected.Some? <==> m.activePet.Some?)
    && (m.selected.Some? ==> exists i :: 0 <= i < |m.blocks| && m.blocks[i].id == m.selected.value.id)
    && (m.selected.Some? ==> forall i :: 0 <= i < |m.blocks| && m.blocks[i].id == m.selected.value.id ==>
          m.blocks[i].hp > 0)
  }

  /** The grid a new mine starts with: nine full blocks in a 3 x 3 layout.
      Gem rolls stand for `Math.floor(Math.random() * 50)`. */
  function InitialMine(gemRolls: seq<nat>): (m: Mine)
    requires |gemRolls| == BlockCount
    requires forall i :: 0 <= i < |gemRolls| ==> gemRolls[i] < 50
    ensures |m.blocks| == 9
    ensures forall i :: 0 <= i < 9 ==>
      && m.blocks[i].id == BlockId(i)
      && m.blocks[i].hp == 3 && m.blocks[i].maxHp == 3
      && 10 <= m.blocks[i].gems <= 59
    ensures m.selected == None && m.activePet == None && m.gemsCollected == 0
    ensures ValidMine(m)
  {
    var blocks := seq(BlockCount, i requires 0 <= i < BlockCount =>
      Block(BlockId(i), BlockHp, BlockHp, gemRolls[i] + 10, (i % 3) * 33 + 16, (i / 3) * 28 + 20));
    assert forall i, j :: 0 <= i < j < |blocks| ==> blocks[i].id != blocks[j].id by {
      forall i, j | 0 <= i < j < |blocks|
        ensures blocks[i].id != blocks[j].id
      {
        if blocks[i].id == blocks[j].id {
          BlockIdInjective(i, j);
        }
      }
    }
    Mine(blocks, None, None, 0)
  }

  /** Tapping block `k`: ignored when no pet is equipped or the block is
      broken; otherwise selects it and the equipped pet at `pick`. */
  function TapBlock(m: Mine, k: nat, equipped: seq<Pet>, pick: nat): (r: Mine)
    requires k < |m.blocks|
    requires |equipped| > 0 ==> pick < |equipped|
    ensures |equipped| == 0 || m.blocks[k].hp <= 0 ==> r == m
    ensures |equipped| > 0 && m.blocks[k].hp > 0 ==>
      && r.selected == Some(m.blocks[k])
      && r.activePet.Some? && r.activePet.value in equipped
      && r.blocks == m.blocks && r.gemsCollected == m.gemsCollected
    ensures ValidMine(m) ==> ValidMine(r)
  {
    if |equipped| == 0 || m.blocks[k].hp <= 0 then m
    else m.(selected := Some(m.blocks[k]), activePet := Some(equipped[pick]))
  }

  /** Gems released by chipping the blocks with this id: those whose hit
      points drop to zero or below. */
  function GemsReleased(blocks: seq<Block>, id: string): (g: int)
    ensures (forall i :: 0 <= i < |blocks| ==> blocks[i].gems >= 0) ==> g >= 0
  {
    if |blocks| == 0 then 0
    else
      (if blocks[0].id == id && blocks[0].hp - 1 <= 0 then blocks[0].gems else 0)
      + GemsReleased(blocks[1..], id)
  }

  /** With distinct ids, only block `k` can release gems. */
  lemma {:induction false} GemsReleasedSingle(blocks: seq<Block>, k: nat)
    requires k < |blocks|
    requires forall i, j :: 0 <= i < j < |blocks| ==> blocks[i].id != blocks[j].id
    ensures GemsReleased(blocks, blocks[k].id) == if blocks[k].hp - 1 <= 0 then blocks[k].gems else 0
  {
    var id := blocks[k].id;
    if k == 0 {
      GemsReleasedNone(blocks[1..], id);
    } else {
      assert blocks[0].id != id;
      GemsReleasedSingle(blocks[1..], k - 1);
    }
  }

  lemma {:induction false} GemsReleasedNone(blocks: seq<Block>, id: string)
    requires forall i :: 0 <= i < |blocks| ==> blocks[i].id != id
    ensures GemsReleased(blocks, id) == 0
  {
    if |blocks| > 0 {
      GemsReleasedNone(blocks[1..], id);
    }
  }

  /** Takes one hit point off every block with this id. */
  function Chip(blocks: seq<Block>, id: string): seq<Block>
  {
    seq(|blocks|, i requires 0 <= i < |blocks| =>
      if blocks[i].id == id then blocks[i].(hp := blocks[i].hp - 1) else blocks[i])
  }

  /** The pet's answer to the selected block: recorded as a mining answer
      in the game state; if correct, the block loses a hit point and its
      gems are collected once it breaks. The selection is cleared. */
  function MineAnswer(m: Mine, game: GameState, answer: int, timeMs: int): (r: (Mine, GameState))
    ensures m.selected.None? || m.activePet.None? ==> r == (m, game)
    ensures m.selected.Some? && m.activePet.Some? ==>
      var pet, sel := m.activePet.value, m.selected.value;
      var correct := answer == pet.fact.answer;
      && r.1 == GameEngine.MineBlock(game, pet.id, correct, timeMs).0
      && r.0.selected.None? && r.0.activePet.None?
      && |r.0.blocks| == |m.blocks|
      && (!correct ==> r.0.blocks == m.blocks && r.0.gemsCollected == m.gemsCollected)
      && (correct ==> forall i :: 0 <= i < |m.blocks| ==>
            r.0.blocks[i] == (if m.blocks[i].id == sel.id then m.blocks[i].(hp := m.blocks[i].hp - 1)
                              else m.blocks[i]))
    ensures r.1.coins >= game.coins
    ensures ValidMine(m) ==> ValidMine(r.0)
  {
    if m.selected.None? || m.activePet.None? then (m, game)
    else
      var pet, sel := m.activePet.value, m.selected.value;
      var correct := answer == pet.fact.answer;
      var game' := GameEngine.MineBlock(game, pet.id, correct, timeMs).0;
      if correct then
        (Mine(Chip(m.blocks, sel.id), None, None, m.gemsCollected + GemsReleased(m.blocks, sel.id)), game')
      else
        (m.(selected := None, activePet := None), game')
  }

  /** On a valid grid, a correct answer on block `k` adds that block's gems
      exactly when the answer breaks it. */
  lemma MineAnswerGems(m: Mine, game: GameState, timeMs: int, k: nat)
    requires ValidMine(m)
    requires m.selected.Some? && m.activePet.Some?
    requires k < |m.blocks| && m.blocks[k].id == m.selected.value.id
    ensures var r := MineAnswer(m, game, m.activePet.value.fact.answer, timeMs).0;
      r.gemsCollected == m.gemsCollected + (if m.blocks[k].hp == 1 then m.blocks[k].gems else 0)
  {
    GemsReleasedSingle(m.blocks, k);
  }

  /** The delayed respawn of a broken block: full hit points and new gems
      from a fresh roll, every other block untouched. */
  function Respawn(m: Mine, id: string, gemRoll: nat): (r: Mine)
    requires gemRoll < 50
    ensures |r.blocks| == |m.blocks|
    ensures forall i :: 0 <= i < |m.blocks| ==>
      if m.blocks[i].id == id then
        r.blocks[i] == m.blocks[i].(hp := m.blocks[i].maxHp, gems := gemRoll + 10)
      else
        r.blocks[i] == m.blocks[i]
    ensures r.selected == m.selected && r.activePet == m.activePet && r.gemsCollected == m.gemsCollected
    ensures ValidMine(m) ==> ValidMine(r)
  {
    m.(blocks := seq(|m.blocks|, i requires 0 <= i < |m.blocks| =>
      if m.blocks[i].id == id then m.blocks[i].(hp := m.blocks[i].maxHp, gems := gemRoll + 10)
      else m.blocks[i]))
  }

  /** Closing the overlay without answering clears the selection. */
  function CloseOverlay(m: Mine): (r: Mine)
    ensures r.selected.None? && r.activePet.None?
    ensures r.blocks == m.blocks && r.gemsCollected == m.gemsCollected
    ensures ValidMine(m) ==> ValidMine(r)
  {
    m.(selected := None, activePet := None)
  }
}
