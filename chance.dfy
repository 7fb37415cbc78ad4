/**
 * Randomness as explicit input.  Every `random.randint`, `random.choice` and
 * `roll_dice` call of the game becomes a raw natural-number draw that the caller
 * supplies; the functions here map a draw into the range the program draws from.
 * Only the range is modelled, not the distribution.
 */
module Chance {

  /** `random.randint(lo, hi)`: some value in the closed range [lo, hi]. */
  function RandInt(lo: int, hi: int, r: nat): (v: int)
    requires lo <= hi
    ensures lo <= v <= hi
  {
    lo + r % (hi - lo + 1)
  }

  /** The raw draw v - lo yields v. */
  lemma RandIntExact(lo: int, hi: int, v: int)
    requires lo <= v <= hi
    ensures RandInt(lo, hi, v - lo) == v
  {
    var r: nat := v - lo;
    assert r % (hi - lo + 1) == r;
  }

  /** Every value of the range is drawn by some raw draw. */
  lemma RandIntOnto(lo: int, hi: int, v: int)
    requires lo <= v <= hi
    ensures exists r: nat :: RandInt(lo, hi, r) == v
  {
    RandIntExact(lo, hi, v);
  }

  /** `random.choice(xs)`: some element of a non-empty list. */
  function Choice<T>(xs: seq<T>, r: nat): (x: T)
    requires |xs| > 0
    ensures x in xs
  {
    xs[r % |xs|]
  }

  /** The raw draw i chooses element i. */
  lemma ChoiceAt<T>(xs: seq<T>, i: nat)
    requires i < |xs|
    ensures Choice(xs, i) == xs[i]
  {
    assert i % |xs| == i;
  }

  /** Every element of the list is chosen by some raw draw. */
  lemma ChoiceOnto<T>(xs: seq<T>, i: nat)
    requires i < |xs|
    ensures exists r: nat :: Choice(xs, r) == xs[i]
  {
    ChoiceAt(xs, i);
  }

  /**
   * The raw draws one turn may consume: the coin of a random challenge decision,
   * the escalation category, a quantity, a face value, and the index of the die
   * a player loses under the attrition rule.
   */
  datatype Draws = Draws(coin: nat, category: nat, quantity: nat, face: nat, die: nat)

  /**
   * The randomness of one game: `roll(p, j)` is the draw behind die j of player p,
   * `starter` picks the random first player, `turn(k)` holds the draws of the turn
   * that follows k recorded actions.
   */
  datatype Oracle = Oracle(roll: (nat, nat) -> nat, starter: nat, turn: nat -> Draws)
}
