/** The answer overlay (`src/components/game/AnswerBubbles.tsx`): the
    four answer options in shuffled order and the judgement of a tap. */
module AnswerBubbles {
  import opened Optional
  import opened Sequences
  import opened GameTypes
  import PetData

  /** The generated distractors followed by the correct answer. */
  function OptionList(wrong: seq<int>, answer: int): seq<int>
  {
    wrong + [answer]
  }

  /** `picks[i]` is the draw `Math.floor(Math.random() * (i + 1))` made at step `i`. */
  predicate ValidPicks(picks: seq<nat>, n: nat)
  {
    |picks| == n && forall i :: 0 <= i < n ==> picks[i] <= i
  }

  /** Fisher-Yates shuffle: for `i` from the last index down to 1, swap
      positions `i` and `picks[i]`. */
  method Shuffle(all: seq<int>, picks: seq<nat>) returns (r: seq<int>)
    requires ValidPicks(picks, |all|)
    ensures |r| == |all|
    ensures multiset(r) == multiset(all)
    ensures Distinct(all) ==> Distinct(r)
  {
    r := all;
    var i := |r| - 1;
    while i > 0
      invariant -1 <= i < |all|
      invariant |r| == |all|
      invariant multiset(r) == multiset(all)
    {
      var j := picks[i];
      r := r[i := r[j]][j := r[i]];
      i := i - 1;
    }
    if Distinct(all) {
      PermutationKeepsDistinct(all, r);
    }
  }

  /** A tapped answer is correct exactly when it is the fact's answer. */
  predicate IsCorrect(pet: Pet, chosen: int)
  {
    chosen == pet.fact.answer
  }

  /** What a tap reports: whether it was right and how long it took. */
  datatype Judgement = Judgement(correct: bool, timeMs: int)

  function HandleAnswer(pet: Pet, chosen: int, startTime: int, now: int): (j: Judgement)
    ensures j.correct <==> IsCorrect(pet, chosen)
    ensures j.timeMs + startTime == now
  {
    Judgement(chosen == pet.fact.answer, now - startTime)
  }

  /** Builds the shuffled options for a pet; `None` when the distractor
      draws run out before three are found. */
  method PrepareOptions(pet: Pet, rolls: seq<int>, picks: seq<nat>) returns (r: Option<seq<int>>)
    requires PetData.ValidRolls(rolls)
    requires ValidPicks(picks, 4)
    ensures r.Some? <==> |PetData.Accepted(pet.fact.answer, rolls)| >= 3
    ensures r.Some? ==> |r.value| == 4 && Distinct(r.value)
    ensures r.Some? ==>
      && |PetData.Accepted(pet.fact.answer, rolls)| >= 3
      && multiset(r.value) == multiset(PetData.Accepted(pet.fact.answer, rolls)[..3] + [pet.fact.answer])
    ensures r.Some? ==> multiset(r.value)[pet.fact.answer] == 1
    ensures r.Some? ==>
      exists k :: 0 <= k < 4 && IsCorrect(pet, r.value[k]) &&
        (forall m :: 0 <= m < 4 && IsCorrect(pet, r.value[m]) ==> m == k)
    ensures r.Some? ==> forall x :: x in r.value && x != pet.fact.answer ==>
      x > 0 && pet.fact.answer - 10 <= x <= pet.fact.answer + 9
  {
    var answer := pet.fact.answer;
    var wrong := PetData.GenerateWrongAnswers(answer, 3, rolls);
    if wrong.None? {
      return None;
    }
    var all := OptionList(wrong.value, answer);
    assert answer !in wrong.value;
    assert Distinct(all);
    var shuffled := Shuffle(all, picks);
    assert answer in multiset(shuffled);
    var k :| 0 <= k < 4 && shuffled[k] == answer;
    assert forall m :: 0 <= m < 4 ==> (IsCorrect(pet, shuffled[m]) <==> m == k);
    forall x | x in shuffled && x != answer
      ensures x > 0 && answer - 10 <= x <= answer + 9
    {
      assert x in multiset(all);
      assert x in wrong.value;
    }
    return Some(shuffled);
  }
}
