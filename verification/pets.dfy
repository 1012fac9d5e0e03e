/** Construction of facts and pets, the rank classifier and the
    distractor generator (`src/data/pets.ts`). Every random draw of the
    source is a parameter here. */
module PetData {
  import opened Optional
  import opened Strings
  import opened Sequences
  import opened GameTypes

  /** The family a number names: 2 to 10 have their own, anything else is `Fives`. */
  function GetFamily(num: int): (f: Family)
    ensures 2 <= num <= 10 ==> FamilyNumber(f) == Some(num)
    ensures !(2 <= num <= 10) ==> f == Fives
    ensures f != Division
  {
    if num == 2 then Twos
    else if num == 3 then Threes
    else if num == 4 then Fours
    else if num == 5 then Fives
    else if num == 6 then Sixes
    else if num == 7 then Sevens
    else if num == 8 then Eights
    else if num == 9 then Nines
    else if num == 10 then Tens
    else Fives
  }

  /** The number a multiplication family is named after. */
  function FamilyNumber(f: Family): Option<int>
  {
    match f
    case Twos => Some(2)
    case Threes => Some(3)
    case Fours => Some(4)
    case Fives => Some(5)
    case Sixes => Some(6)
    case Sevens => Some(7)
    case Eights => Some(8)
    case Nines => Some(9)
    case Tens => Some(10)
    case Division => None
  }

  /** The operation's name followed by the separator `-`. */
  function OperationPrefix(op: Operation): string
  {
    match op
    case Multiply => "multiply-"
    case Divide => "divide-"
  }

  /** The identifier `operation-num1-num2` of a fact. */
  function FactId(op: Operation, num1: nat, num2: nat): string
  {
    OperationPrefix(op) + (NatToString(num1) + "-" + NatToString(num2))
  }

  /** What a fact identifier is made from. */
  datatype FactKey = FactKey(operation: Operation, num1: nat, num2: nat)

  /** `s` with the prefix `p` taken off; `None` when `s` does not start with `p`. */
  function StripPrefix(p: string, s: string): (r: Option<string>)
    ensures r.Some? ==> s == p + r.value
  {
    if |p| <= |s| && s[..|p|] == p then Some(s[|p|..]) else None
  }

  lemma StripPrefixOf(p: string, rest: string)
    ensures StripPrefix(p, p + rest) == Some(rest)
  {
    assert (p + rest)[..|p|] == p;
    assert (p + rest)[|p|..] == rest;
  }

  /** Reads a fact identifier back; `None` when `s` is not one. */
  function ParseFactId(s: string): Option<FactKey>
  {
    match StripPrefix("multiply-", s)
    case Some(rest) => ParseOperands(Multiply, rest)
    case None =>
      match StripPrefix("divide-", s)
      case Some(rest) => ParseOperands(Divide, rest)
      case None => None
  }

  /** Reads `num1-num2`; each operand must be a numeral as `NatToString`
      writes it, nonempty and without leading zeros. */
  function ParseOperands(op: Operation, t: string): Option<FactKey>
  {
    var k := FirstIndexOf(t, '-');
    if k < |t| && IsNumeral(t[..k]) && IsNumeral(t[k + 1..]) then
      Some(FactKey(op, ParseNat(t[..k]), ParseNat(t[k + 1..])))
    else
      None
  }

  lemma ParseOperandsRoundTrip(op: Operation, a: nat, b: nat)
    ensures ParseOperands(op, NatToString(a) + "-" + NatToString(b)) == Some(FactKey(op, a, b))
  {
    var x, y := NatToString(a), NatToString(b);
    var t := x + "-" + y;
    FirstIndexOfSeparator(x, '-', y);
    assert t[..|x|] == x;
    assert t[|x| + 1..] == y;
    ParseNatToString(a);
    ParseNatToString(b);
  }

  /** Reading an identifier back recovers the operation and both operands. */
  lemma FactIdRoundTrip(op: Operation, num1: nat, num2: nat)
    ensures ParseFactId(FactId(op, num1, num2)) == Some(FactKey(op, num1, num2))
  {
    var rest := NatToString(num1) + "-" + NatToString(num2);
    var s := FactId(op, num1, num2);
    ParseOperandsRoundTrip(op, num1, num2);
    StripPrefixOf(OperationPrefix(op), rest);
    if op == Divide {
      assert s[0] == 'd';
      assert StripPrefix("multiply-", s).None?;
    }
  }

  /** Operands that parse are exactly the rendering of what they denote. */
  lemma ParseOperandsCanonical(op: Operation, t: string)
    requires ParseOperands(op, t).Some?
    ensures var key := ParseOperands(op, t).value;
      t == NatToString(key.num1) + "-" + NatToString(key.num2)
  {
    var k := FirstIndexOf(t, '-');
    NatToStringParseNat(t[..k]);
    NatToStringParseNat(t[k + 1..]);
    assert t == t[..k] + "-" + t[k + 1..];
  }

  /** The converse of the round trip: the only strings that parse as fact
      identifiers are the identifiers of the keys they parse to. */
  lemma ParseFactIdCanonical(s: string)
    requires ParseFactId(s).Some?
    ensures var key := ParseFactId(s).value;
      s == FactId(key.operation, key.num1, key.num2)
  {
    match StripPrefix("multiply-", s)
    case Some(rest) =>
      ParseOperandsCanonical(Multiply, rest);
    case None =>
      var rest := StripPrefix("divide-", s).value;
      ParseOperandsCanonical(Divide, rest);
  }

  lemma FactIdInjective(k1: FactKey, k2: FactKey)
    requires FactId(k1.operation, k1.num1, k1.num2) == FactId(k2.operation, k2.num1, k2.num2)
    ensures k1 == k2
  {
    FactIdRoundTrip(k1.operation, k1.num1, k1.num2);
    FactIdRoundTrip(k2.operation, k2.num1, k2.num2);
  }

  function Min(a: int, b: int): int
  {
    if a <= b then a else b
  }

  lemma ExactQuotient(a: nat, b: nat)
    requires b > 0 && a % b == 0
    ensures (a / b) * b == a
  {
  }

  /** Builds a fact. Division is only defined here for an exact, non-zero divisor. */
  function CreateMathFact(num1: nat, num2: nat, op: Operation): (f: MathFact)
    requires op == Divide ==> num2 > 0 && num1 % num2 == 0
    ensures f.operation == op && f.num1 == num1 && f.num2 == num2
    ensures ParseFactId(f.id) == Some(FactKey(op, num1, num2))
    ensures op == Multiply ==> f.answer == num1 * num2
    ensures op == Divide ==> f.answer * num2 == num1
    ensures f.family == Division <==> op == Divide
    ensures op == Multiply ==> f.family == GetFamily(Min(num1, num2))
  {
    FactIdRoundTrip(op, num1, num2);
    var answer := if op == Multiply then num1 * num2 else (ExactQuotient(num1, num2); num1 / num2);
    MathFact(
      FactId(op, num1, num2),
      op,
      num1,
      num2,
      answer,
      if op == Divide then Division else GetFamily(Min(num1, num2)))
  }

  /** The random draws behind one new pet: the template name and emoji,
      the starting-hunger roll in [0, 60) and the time it was last fed. */
  datatype PetRoll = PetRoll(baseName: string, emoji: string, hungerRoll: nat, lastFed: int)

  const DayMs: int := 86400000

  predicate ValidRoll(roll: PetRoll, now: int)
  {
    roll.hungerRoll < 60 && now - DayMs <= roll.lastFed <= now
  }

  function PetId(fact: MathFact): string
  {
    "pet-" + fact.id
  }

  lemma PetIdInjective(f: MathFact, g: MathFact)
    requires PetId(f) == PetId(g)
    ensures f.id == g.id
  {
    assert f.id == PetId(f)[4..];
    assert g.id == PetId(g)[4..];
  }

  /** A fresh pet for `fact`: bronze, stability 1, no attempts yet, and a
      whole-number starting hunger in [20, 79]. */
  function CreatePet(fact: MathFact, roll: PetRoll, now: int): (p: Pet)
    requires ValidRoll(roll, now)
    ensures p.id == PetId(fact) && p.fact == fact
    ensures p.rank == Bronze && p.stability == 1.0
    ensures p.correctStreak == 0 && p.totalAttempts == 0 && p.fastCorrects == 0
    ensures 20.0 <= p.hunger <= 79.0 && p.hunger == p.hunger.Floor as real
    ensures now - DayMs <= p.lastFed <= now
    ensures ValidPet(p)
  {
    Pet(
      PetId(fact),
      NatToString(fact.num1) + "×" + NatToString(fact.num2) + " " + roll.baseName,
      roll.emoji,
      fact,
      Bronze,
      (roll.hungerRoll + 20) as real,
      roll.lastFed,
      1.0,
      0,
      0,
      0)
  }

  /** The operand pairs of the eight starter facts. */
  const StarterOperands: seq<(nat, nat)> :=
    [(2, 3), (2, 5), (3, 4), (5, 5), (6, 7), (7, 8), (9, 9), (4, 6)]

  /** The starter fact at position `i` of the roster. */
  function StarterFact(i: nat): (f: MathFact)
    requires i < |StarterOperands|
    ensures f.operation == Multiply
    ensures ParseFactId(f.id) == Some(FactKey(Multiply, StarterOperands[i].0, StarterOperands[i].1))
  {
    CreateMathFact(StarterOperands[i].0, StarterOperands[i].1, Multiply)
  }

  lemma StarterFactIdsDistinct(i: nat, j: nat)
    requires i < j < |StarterOperands|
    ensures StarterFact(i).id != StarterFact(j).id
  {
    assert StarterOperands[i] != StarterOperands[j];
  }

  /** Starter pets built from different starter facts have different ids. */
  lemma StarterPetIdsDistinct(i: nat, j: nat)
    requires i < j < |StarterOperands|
    ensures PetId(StarterFact(i)) != PetId(StarterFact(j))
  {
    StarterFactIdsDistinct(i, j);
    if PetId(StarterFact(i)) == PetId(StarterFact(j)) {
      PetIdInjective(StarterFact(i), StarterFact(j));
    }
  }

  /** No two starter positions share a pet id. */
  lemma StarterIdsDistinct()
    ensures forall i, j :: 0 <= i < j < |StarterOperands| ==> PetId(StarterFact(i)) != PetId(StarterFact(j))
  {
    forall i, j | 0 <= i < j < |StarterOperands|
      ensures PetId(StarterFact(i)) != PetId(StarterFact(j))
    {
      StarterPetIdsDistinct(i, j);
    }
  }

  /** The starter pet at position `i` of the roster. */
  function StarterPet(rolls: seq<PetRoll>, now: int, i: nat): (p: Pet)
    requires i < |rolls| == |StarterOperands|
    requires ValidRoll(rolls[i], now)
    ensures p.id == PetId(StarterFact(i))
    ensures p.fact.operation == Multiply
    ensures p.fact.num1 == StarterOperands[i].0 && p.fact.num2 == StarterOperands[i].1
    ensures p.rank == Bronze && ValidPet(p)
  {
    CreatePet(StarterFact(i), rolls[i], now)
  }

  /** The starter roster: one fresh pet per starter multiplication fact. */
  function GenerateStarterPets(rolls: seq<PetRoll>, now: int): (pets: seq<Pet>)
    requires |rolls| == |StarterOperands|
    requires forall i :: 0 <= i < |rolls| ==> ValidRoll(rolls[i], now)
    ensures |pets| == 8
    ensures forall i :: 0 <= i < 8 ==>
      && pets[i].fact.operation == Multiply
      && pets[i].fact.num1 == StarterOperands[i].0
      && pets[i].fact.num2 == StarterOperands[i].1
      && pets[i].rank == Bronze
      && ValidPet(pets[i])
    ensures forall i, j :: 0 <= i < j < 8 ==> pets[i].id != pets[j].id
  {
    var pets := seq(8, i requires 0 <= i < 8 => StarterPet(rolls, now, i));
    StarterIdsDistinct();
    pets
  }

  /** The rank an answer earns; `None` for a wrong answer. Boundaries go
      to the slower tier: 2000 ms is diamond, 5000 ms is bronze. */
  function CalculateRank(timeMs: int, correct: bool): (r: Option<Rank>)
    ensures r.None? <==> !correct
    ensures correct ==> (r.value == Neon <==> timeMs < 2000)
    ensures correct ==> (r.value == Diamond <==> 2000 <= timeMs < 3000)
    ensures correct ==> (r.value == Gold <==> 3000 <= timeMs < 5000)
    ensures correct ==> (r.value == Bronze <==> 5000 <= timeMs)
  {
    if !correct then None
    else if timeMs < 2000 then Some(Neon)
    else if timeMs < 3000 then Some(Diamond)
    else if timeMs < 5000 then Some(Gold)
    else Some(Bronze)
  }

  /** A slower correct answer never earns a higher tier. */
  lemma CalculateRankAntitone(t1: int, t2: int)
    requires t1 <= t2
    ensures Level(CalculateRank(t2, true).value) <= Level(CalculateRank(t1, true).value)
  {
  }

  /** A correct answer is fast (under 3 s) exactly when it earns diamond or neon. */
  lemma FastIffDiamondOrBetter(timeMs: int)
    ensures timeMs < 3000 <==> Level(CalculateRank(timeMs, true).value) >= Level(Diamond)
  {
  }

  /** Distractor rolls stand for `Math.floor(Math.random() * 20)`. */
  predicate ValidRolls(rolls: seq<int>)
  {
    forall k :: 0 <= k < |rolls| ==> 0 <= rolls[k] < 20
  }

  /** The candidates a run of rolls adds to the distractor set, in the
      order they are added, had the loop no target count. */
  function Accepted(correctAnswer: int, rolls: seq<int>): (r: seq<int>)
    requires ValidRolls(rolls)
    ensures Distinct(r)
    ensures forall x :: x in r ==>
      x != correctAnswer && x > 0 && correctAnswer - 10 <= x <= correctAnswer + 9
  {
    if |rolls| == 0 then []
    else
      var a := Accepted(correctAnswer, rolls[..|rolls| - 1]);
      var candidate := correctAnswer + (rolls[|rolls| - 1] - 10);
      if candidate != correctAnswer && candidate > 0 && candidate !in a then a + [candidate] else a
  }

  lemma {:induction false} AcceptedPrefix(correctAnswer: int, rolls: seq<int>, k: nat)
    requires ValidRolls(rolls)
    requires k <= |rolls|
    ensures |Accepted(correctAnswer, rolls[..k])| <= |Accepted(correctAnswer, rolls)|
    ensures Accepted(correctAnswer, rolls[..k])
         == Accepted(correctAnswer, rolls)[..|Accepted(correctAnswer, rolls[..k])|]
    decreases |rolls|
  {
    if k == |rolls| {
      assert rolls[..k] == rolls;
    } else {
      var init := rolls[..|rolls| - 1];
      assert rolls[..k] == init[..k];
      AcceptedPrefix(correctAnswer, init, k);
    }
  }

  /** Draws distractors until `count` distinct ones are found. The rolls
      are the draws the source makes; `None` means they ran out first. */
  method GenerateWrongAnswers(correctAnswer: int, count: nat, rolls: seq<int>)
    returns (r: Option<seq<int>>)
    requires ValidRolls(rolls)
    ensures r.Some? <==> |Accepted(correctAnswer, rolls)| >= count
    ensures r.Some? ==> r.value == Accepted(correctAnswer, rolls)[..count]
    ensures r.Some? ==> |r.value| == count && Distinct(r.value)
    ensures r.Some? ==> forall x :: x in r.value ==>
      x != correctAnswer && x > 0 && correctAnswer - 10 <= x <= correctAnswer + 9
  {
    var wrong: seq<int> := [];
    var k := 0;
    while |wrong| < count
      invariant 0 <= k <= |rolls|
      invariant wrong == Accepted(correctAnswer, rolls[..k])
      invariant |wrong| <= count
      decreases |rolls| - k
    {
      if k == |rolls| {
        assert rolls[..k] == rolls;
        return None;
      }
      var candidate := correctAnswer + (rolls[k] - 10);
      assert rolls[..k + 1][..k] == rolls[..k];
      if candidate != correctAnswer && candidate > 0 && candidate !in wrong {
        wrong := wrong + [candidate];
      }
      k := k + 1;
    }
    AcceptedPrefix(correctAnswer, rolls, k);
    var all := Accepted(correctAnswer, rolls);
    assert wrong == all[..count];
    assert forall x :: x in wrong ==> x in all;
    return Some(wrong);
  }
}
