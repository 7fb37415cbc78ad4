/**
 * The rules of Liar's Dice shared by every engine: the data every component
 * exchanges, the wildcard "effective count" and the challenge verdict, and the
 * roll of a hand.
 */
module GameRules {
  import opened Chance

  /** A claim "at least `quantity` dice, counting wildcards, show `face`". */
  datatype Bid = Bid(quantity: int, face: int)

  /** What a player does on their turn: challenge the previous bid, or bid. */
  datatype Action = Liar | Propose(bid: Bid)

  /** One entry `{player: action}` of a game's bid record. */
  datatype Turn = Turn(player: int, action: Action)

  /** The exceptions the program raises. */
  datatype Error =
    | NonIntegerBid        // ValueError: a bid component is not an integer
    | BadConfiguration     // ValueError: fewer than 2 players or no dice
    | UnknownStarter       // lookup of a first player who is not seated
    | ChallengeWithoutBid  // a challenge while there is no bid to challenge
    | UnknownThreshold     // ValueError: an unknown liar threshold name

  datatype Result<T> = Ok(value: T) | Failure(error: Error)

  /** A value or Python's `None`. */
  datatype Option<T> = None | Some(value: T)

  /** A Python value as `isinstance(_, int)` sees it. */
  datatype PyValue = Int(value: int) | NotInt

  /** A face value a die can show. */
  predicate IsFace(v: int) {
    1 <= v <= 6
  }

  /** A hand: dice that each show a face. */
  predicate IsHand(dice: seq<int>) {
    forall i :: 0 <= i < |dice| ==> IsFace(dice[i])
  }

  /** `Counter(dice)[v]`: the number of dice showing v. */
  function Count(dice: seq<int>, v: int): (c: nat)
    ensures c <= |dice|
  {
    if dice == [] then 0 else (if dice[0] == v then 1 else 0) + Count(dice[1..], v)
  }

  lemma {:induction false} CountIsMultiplicity(dice: seq<int>, v: int)
    ensures Count(dice, v) == multiset(dice)[v]
  {
    if dice != [] {
      CountIsMultiplicity(dice[1..], v);
      assert dice == [dice[0]] + dice[1..];
    }
  }

  lemma CountAppend(dice: seq<int>, x: int, v: int)
    ensures Count(dice + [x], v) == Count(dice, v) + (if x == v then 1 else 0)
  {
    CountIsMultiplicity(dice + [x], v);
    CountIsMultiplicity(dice, v);
  }

  lemma CountConcat(a: seq<int>, b: seq<int>, v: int)
    ensures Count(a + b, v) == Count(a, v) + Count(b, v)
  {
    CountIsMultiplicity(a + b, v);
    CountIsMultiplicity(a, v);
    CountIsMultiplicity(b, v);
  }

  /**
   * The wildcard-adjusted count of `face`: a die showing 1 counts toward every
   * other face, but 1 itself counts only its own dice.
   */
  function EffectiveCount(dice: seq<int>, face: int): nat {
    if face == 1 then Count(dice, 1) else Count(dice, 1) + Count(dice, face)
  }

  /** For face 1 the effective count is the number of 1s and nothing else. */
  lemma EffectiveCountOfOnes(dice: seq<int>)
    ensures EffectiveCount(dice, 1) == multiset(dice)[1]
  {
    CountIsMultiplicity(dice, 1);
  }

  /** For any other face the 1s are wildcards added to the face's own count. */
  lemma EffectiveCountWild(dice: seq<int>, face: int)
    requires face != 1
    ensures EffectiveCount(dice, face) == multiset(dice)[face] + multiset(dice)[1]
  {
    CountIsMultiplicity(dice, 1);
    CountIsMultiplicity(dice, face);
  }

  /** No face is claimed by more dice than there are. */
  lemma {:induction false} EffectiveCountBound(dice: seq<int>, face: int)
    ensures EffectiveCount(dice, face) <= |dice|
  {
    if dice != [] {
      EffectiveCountBound(dice[1..], face);
    }
  }

  /** The verdict of a challenge: true when the challenged bid claims more than the dice show. */
  function ChallengeIsValid(bid: Bid, dice: seq<int>): bool {
    bid.quantity > EffectiveCount(dice, bid.face)
  }

  /**
   * `valid_challenge(bid, all_dice)`: a ValueError unless both components are
   * integers; otherwise the verdict over the pooled dice.
   */
  function ValidChallenge(quantity: PyValue, face: PyValue, dice: seq<int>): (r: Result<bool>)
    ensures r.Failure? <==> !(quantity.Int? && face.Int?)
    ensures r.Failure? ==> r.error == NonIntegerBid
    ensures r.Ok? ==> (r.value <==> quantity.value > EffectiveCount(dice, face.value))
  {
    if !quantity.Int? || !face.Int? then Failure(NonIntegerBid)
    else Ok(ChallengeIsValid(Bid(quantity.value, face.value), dice))
  }

  /** The verdict depends only on the multiset of dice: reordering them changes nothing. */
  lemma ChallengePermutation(bid: Bid, a: seq<int>, b: seq<int>)
    requires multiset(a) == multiset(b)
    ensures ChallengeIsValid(bid, a) == ChallengeIsValid(bid, b)
  {
    CountIsMultiplicity(a, 1);
    CountIsMultiplicity(b, 1);
    CountIsMultiplicity(a, bid.face);
    CountIsMultiplicity(b, bid.face);
  }

  /** With face and dice fixed, claiming more can turn an invalid challenge valid, never the reverse. */
  lemma ChallengeMonotone(q1: int, q2: int, face: int, dice: seq<int>)
    requires q1 <= q2
    ensures ChallengeIsValid(Bid(q1, face), dice) ==> ChallengeIsValid(Bid(q2, face), dice)
  {
  }

  /** `roll_dice(num_dice)`: `num_dice` dice, each showing a face. */
  function RollDice(numDice: nat, draw: nat -> nat): (hand: seq<int>)
    ensures |hand| == numDice
    ensures IsHand(hand)
  {
    var hand := seq(numDice, (j: int) requires 0 <= j < numDice => RandInt(1, 6, draw(j)));
    assert forall j :: 0 <= j < numDice ==> hand[j] == RandInt(1, 6, draw(j));
    hand
  }

  /** Every hand of faces is a possible roll. */
  lemma RollDiceOnto(hand: seq<int>)
    requires IsHand(hand)
    ensures exists draw: nat -> nat :: RollDice(|hand|, draw) == hand
  {
    var draw := (j: nat) => if j < |hand| && hand[j] >= 1 then hand[j] - 1 else 0;
    var rolled := RollDice(|hand|, draw);
    forall j | 0 <= j < |hand|
      ensures rolled[j] == hand[j]
    {
      assert draw(j) == hand[j] - 1;
      assert (hand[j] - 1) % 6 == hand[j] - 1;
      assert rolled[j] == RandInt(1, 6, draw(j));
    }
    assert rolled == hand;
  }
}
