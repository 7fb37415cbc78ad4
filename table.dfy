/**
 * The table every engine keeps: the hands of the seated players (ids
 * 0..n-1, a dictionary from id to dice), the set of active players, the
 * wrap-around scans that find the previous and the next active player, the
 * deal, the pooled dice, and the resolution of a challenge.
 */
module Table {
  import opened Chance
  import opened GameRules

  /** `players_dice`: the dice of every player still holding some. */
  type Hands = map<int, seq<int>>

  /** Every listed id is a seat 0..n-1. */
  predicate Seated(ids: set<int>, n: int) {
    forall p :: p in ids ==> 0 <= p < n
  }

  /** Every hand holds at least one die, each showing a face. */
  predicate WellFormed(hands: Hands) {
    forall p :: p in hands ==> |hands[p]| >= 1 && IsHand(hands[p])
  }

  // ---------------------------------------------------------------------------
  // Seating: one step around the table and the scans built from it.
  // ---------------------------------------------------------------------------

  /** `p += 1`, wrapping to 0 past the last seat. */
  function StepForward(p: int, n: int): int {
    if p + 1 >= n then 0 else p + 1
  }

  /** `p -= 1`, wrapping to the last seat below 0. */
  function StepBack(p: int, n: int): int {
    if p - 1 < 0 then n - 1 else p - 1
  }

  /** `(p + 1) % n` is one step forward from a seat p. */
  lemma WrapStep(p: int, n: int)
    requires 0 <= p < n
    ensures (p + 1) % n == StepForward(p, n)
  {
  }

  /** The seat k steps after p. */
  function Forward(p: int, k: nat, n: int): int {
    if k == 0 then p else StepForward(Forward(p, k - 1, n), n)
  }

  /** The seat k steps before p. */
  function Backward(p: int, k: nat, n: int): int {
    if k == 0 then p else StepBack(Backward(p, k - 1, n), n)
  }

  lemma {:induction false} ForwardClosed(p: int, k: nat, n: int)
    requires 0 <= p < n && k <= n
    ensures Forward(p, k, n) == if p + k < n then p + k else p + k - n
  {
    if k > 0 {
      ForwardClosed(p, k - 1, n);
    }
  }

  lemma {:induction false} BackwardClosed(p: int, k: nat, n: int)
    requires 0 <= p < n && k <= n
    ensures Backward(p, k, n) == if p - k >= 0 then p - k else p - k + n
  {
    if k > 0 {
      BackwardClosed(p, k - 1, n);
    }
  }

  /** Stepping once and then k times is stepping k + 1 times. */
  lemma {:induction false} ForwardShift(p: int, k: nat, n: int)
    ensures Forward(StepForward(p, n), k, n) == Forward(p, k + 1, n)
  {
    if k > 0 {
      ForwardShift(p, k - 1, n);
    }
  }

  /** Every seat is reached from p within fewer than n steps forward. */
  lemma ForwardReaches(p: int, q: int, n: int) returns (j: nat)
    requires 0 <= p < n && 0 <= q < n
    ensures j < n && Forward(p, j, n) == q
  {
    j := if q >= p then q - p else q - p + n;
    ForwardClosed(p, j, n);
  }

  /** Every other seat is reached from p within 1..n-1 steps back. */
  lemma BackwardReaches(p: int, q: int, n: int) returns (j: nat)
    requires 0 <= p < n && 0 <= q < n && q != p
    ensures 1 <= j < n && Backward(p, j, n) == q
  {
    j := if q < p then p - q else p - q + n;
    BackwardClosed(p, j, n);
  }

  /**
   * `next` is the first active seat met when walking forward from `cur`,
   * counting `cur` itself when `from` is 0 and starting one step on when it is 1.
   */
  ghost predicate NearestForward(active: set<int>, n: int, cur: int, next: int, from: nat) {
    exists k: nat :: from <= k <= n && Forward(cur, k, n) == next && next in active &&
      forall j: nat :: from <= j < k ==> Forward(cur, j, n) !in active
  }

  /** `prev` is the first active seat met when walking back from `cur`, one step on. */
  ghost predicate NearestBackward(active: set<int>, n: int, cur: int, prev: int) {
    exists k: nat :: 1 <= k <= n && Backward(cur, k, n) == prev && prev in active &&
      forall j: nat :: 1 <= j < k ==> Backward(cur, j, n) !in active
  }

  /** `while current_player not in active_players: current_player = (current_player + 1) % num_players`. */
  method ScanForward(active: set<int>, n: int, cur: int) returns (next: int)
    requires 0 <= cur < n && Seated(active, n) && active != {}
    ensures 0 <= next < n && next in active
    ensures NearestForward(active, n, cur, next, 0)
  {
    next := cur;
    ghost var k: nat := 0;
    while next !in active
      invariant k <= n && 0 <= next < n && next == Forward(cur, k, n)
      invariant forall j: nat :: j < k ==> Forward(cur, j, n) !in active
      decreases n - k
    {
      if k == n {
        NonEmpty(active);
        var q :| q in active;
        var j := ForwardReaches(cur, q, n);
        assert false;
      }
      WrapStep(next, n);
      next := (next + 1) % n;
      k := k + 1;
    }
  }

  /** The turn advance after an action: one seat on, wrapping, then the scan to an active seat. */
  method NextPlayer(active: set<int>, n: int, cur: int) returns (next: int)
    requires 0 <= cur < n && Seated(active, n) && active != {}
    ensures 0 <= next < n && next in active
    ensures NearestForward(active, n, cur, next, 1)
  {
    var start := cur + 1;
    if start >= n {
      start := 0;
    }
    next := ScanForward(active, n, start);
    var k: nat :| k <= n && Forward(start, k, n) == next &&
      forall j: nat :: j < k ==> Forward(start, j, n) !in active;
    ForwardShift(cur, k, n);
    if k == n {
      NonEmpty(active);
      var q :| q in active;
      var j := ForwardReaches(start, q, n);
      assert false;
    }
    forall j: nat | 1 <= j < k + 1
      ensures Forward(cur, j, n) !in active
    {
      ForwardShift(cur, j - 1, n);
    }
  }

  /** A non-empty set has a member. */
  lemma NonEmpty(ids: set<int>)
    requires ids != {}
    ensures exists p :: p in ids
  {
    if forall p :: p !in ids {
      assert false;
    }
  }

  /** With two players seated, someone other than `cur` is active. */
  lemma AnotherActive(active: set<int>, cur: int) returns (q: int)
    requires cur in active && |active| >= 2
    ensures q in active && q != cur
  {
    assert |active - {cur}| == |active| - 1;
    NonEmpty(active - {cur});
    q :| q in active - {cur};
  }

  /**
   * The `while True` search for `previous_player`: the nearest active seat
   * before `cur`, wrapping; it is another player as soon as two are active.
   */
  method PreviousPlayer(active: set<int>, n: int, cur: int) returns (prev: int)
    requires 0 <= cur < n && cur in active && Seated(active, n)
    ensures 0 <= prev < n && prev in active
    ensures NearestBackward(active, n, cur, prev)
    ensures |active| >= 2 ==> prev != cur
  {
    prev := cur;
    ghost var k: nat := 0;
    while true
      invariant k < n && 0 <= prev < n && prev == Backward(cur, k, n)
      invariant forall j: nat :: 1 <= j <= k ==> Backward(cur, j, n) !in active
      decreases n - k
    {
      prev := prev - 1;
      if prev < 0 {
        prev := n - 1;
      }
      k := k + 1;
      assert prev == Backward(cur, k, n);
      if prev in active {
        break;
      }
      if k == n {
        BackwardClosed(cur, k, n);
        assert false;
      }
    }
    if |active| >= 2 && prev == cur {
      BackwardClosed(cur, k, n);
      var q := AnotherActive(active, cur);
      var j := BackwardReaches(cur, q, n);
      assert false;
    }
  }

  // ---------------------------------------------------------------------------
  // The pooled dice and the number of dice in play.
  // ---------------------------------------------------------------------------

  /** The hands of seats 0..k-1 that hold dice, concatenated in ascending seat order. */
  function AllDice(hands: Hands, k: int): seq<int>
    decreases k
  {
    if k <= 0 then [] else AllDice(hands, k - 1) + (if k - 1 in hands then hands[k - 1] else [])
  }

  /** The total number of dice in the hands of `ids`, in no particular order. */
  ghost function SizeSum(hands: Hands, ids: set<int>): nat
    requires ids <= hands.Keys
  {
    if ids == {} then 0
    else
      NonEmpty(ids);
      var p :| p in ids;
      |hands[p]| + SizeSum(hands, ids - {p})
  }

  /** The order in which hands are summed does not matter: any one can be taken out first. */
  lemma {:induction false} SizeSumRemove(hands: Hands, ids: set<int>, p: int)
    requires ids <= hands.Keys && p in ids
    ensures SizeSum(hands, ids) == |hands[p]| + SizeSum(hands, ids - {p})
    decreases |ids|
  {
    var q :| q in ids && SizeSum(hands, ids) == |hands[q]| + SizeSum(hands, ids - {q});
    if q != p {
      SizeSumRemove(hands, ids - {q}, p);
      SizeSumRemove(hands, ids - {p}, q);
      assert ids - {q} - {p} == ids - {p} - {q};
    }
  }

  /** Only the hands of `ids` enter their sum. */
  lemma {:induction false} SizeSumFrame(h1: Hands, h2: Hands, ids: set<int>)
    requires ids <= h1.Keys && ids <= h2.Keys
    requires forall p :: p in ids ==> h1[p] == h2[p]
    ensures SizeSum(h1, ids) == SizeSum(h2, ids)
    decreases |ids|
  {
    if ids != {} {
      NonEmpty(ids);
      var p :| p in ids;
      SizeSumRemove(h1, ids, p);
      SizeSumRemove(h2, ids, p);
      SizeSumFrame(h1, h2, ids - {p});
    }
  }

  /** Replacing one hand changes the sum by the difference in size. */
  lemma SizeSumUpdate(hands: Hands, ids: set<int>, p: int, hand: seq<int>)
    requires ids <= hands.Keys && p in ids
    ensures SizeSum(hands[p := hand], ids) == SizeSum(hands, ids) - |hands[p]| + |hand|
  {
    SizeSumRemove(hands, ids, p);
    SizeSumRemove(hands[p := hand], ids, p);
    SizeSumFrame(hands, hands[p := hand], ids - {p});
  }

  /** When every hand holds a die, there are at least as many dice as hands. */
  lemma {:induction false} SizeSumAtLeastCount(hands: Hands, ids: set<int>)
    requires ids <= hands.Keys && WellFormed(hands)
    ensures SizeSum(hands, ids) >= |ids|
    decreases |ids|
  {
    if ids != {} {
      NonEmpty(ids);
      var p :| p in ids;
      SizeSumRemove(hands, ids, p);
      SizeSumAtLeastCount(hands, ids - {p});
    }
  }

  /** The pooled dice are as many as the hands hold together. */
  lemma {:induction false} AllDiceSize(hands: Hands, k: int)
    ensures |AllDice(hands, k)| == SizeSum(hands, set p | p in hands && 0 <= p < k)
    decreases k
  {
    var below := set p | p in hands && 0 <= p < k;
    if k <= 0 {
      assert below == {};
    } else {
      AllDiceSize(hands, k - 1);
      var fewer := set p | p in hands && 0 <= p < k - 1;
      if k - 1 in hands {
        assert fewer == below - {k - 1};
        SizeSumRemove(hands, below, k - 1);
      } else {
        assert fewer == below;
      }
    }
  }

  /** With every hand at a seat 0..n-1, the pool of all seats holds every die. */
  lemma AllDiceSizeSeated(hands: Hands, n: int)
    requires Seated(hands.Keys, n)
    ensures |AllDice(hands, n)| == SizeSum(hands, hands.Keys)
  {
    AllDiceSize(hands, n);
    assert (set p | p in hands && 0 <= p < n) == hands.Keys;
  }

  /** Pooling hands of faces gives dice showing faces. */
  lemma {:induction false} AllDiceIsHand(hands: Hands, k: int)
    requires WellFormed(hands)
    ensures IsHand(AllDice(hands, k))
    decreases k
  {
    if k > 0 {
      AllDiceIsHand(hands, k - 1);
    }
  }

  /** The pooled dice of seats below k depend only on those seats' hands. */
  lemma {:induction false} AllDiceFrame(h1: Hands, h2: Hands, k: int)
    requires forall p :: 0 <= p < k ==> (p in h1 <==> p in h2) && (p in h1 ==> h1[p] == h2[p])
    ensures AllDice(h1, k) == AllDice(h2, k)
    decreases k
  {
    if k > 0 {
      AllDiceFrame(h1, h2, k - 1);
    }
  }

  /**
   * `update_all_dice`: the hands of the players still holding dice, concatenated
   * in the dictionary's key order, which is ascending seat order.
   */
  method UpdateAllDice(hands: Hands, n: int) returns (all: seq<int>)
    requires Seated(hands.Keys, n)
    ensures all == AllDice(hands, n)
    ensures |all| == SizeSum(hands, hands.Keys)
  {
    all := [];
    var i := 0;
    while i < n
      invariant 0 <= i <= n || (n < 0 && i == 0)
      invariant all == AllDice(hands, i)
    {
      if i in hands {
        all := all + hands[i];
      }
      i := i + 1;
    }
    AllDiceSizeSeated(hands, n);
  }

  /** `for player in active_players: total_dice += len(players_dice[player])`, in any order. */
  method TotalDice(hands: Hands, active: set<int>) returns (total: int)
    requires active <= hands.Keys
    ensures total == SizeSum(hands, active)
  {
    total := 0;
    var remaining := active;
    while remaining != {}
      invariant remaining <= active
      invariant total + SizeSum(hands, remaining) == SizeSum(hands, active)
      decreases |remaining|
    {
      NonEmpty(remaining);
      var player :| player in remaining;
      SizeSumRemove(hands, remaining, player);
      total := total + |hands[player]|;
      remaining := remaining - {player};
    }
  }

  // ---------------------------------------------------------------------------
  // The deal.
  // ---------------------------------------------------------------------------

  /** The hand player i is dealt: `roll_dice(num_dice)` with the player's own draws. */
  function Dealt(numDice: nat, roll: (nat, nat) -> nat, i: nat): (hand: seq<int>)
    ensures |hand| == numDice && IsHand(hand)
  {
    RollDice(numDice, (j: nat) => roll(i, j))
  }

  /** `original_dice`: how many dice of the pool show each face 1..6. */
  ghost predicate Tally(original: map<int, int>, dice: seq<int>) {
    original.Keys == {1, 2, 3, 4, 5, 6} && forall f :: 1 <= f <= 6 ==> original[f] == Count(dice, f)
  }

  /** The six face counts of a hand of faces add up to its size. */
  lemma {:induction false} FaceCountsSum(dice: seq<int>)
    requires IsHand(dice)
    ensures Count(dice, 1) + Count(dice, 2) + Count(dice, 3) + Count(dice, 4) + Count(dice, 5) + Count(dice, 6) == |dice|
  {
    if dice != [] {
      FaceCountsSum(dice[1..]);
    }
  }

  /** The counts of a tally add up to the number of dice tallied. */
  lemma TallySum(original: map<int, int>, dice: seq<int>)
    requires Tally(original, dice) && IsHand(dice)
    ensures original[1] + original[2] + original[3] + original[4] + original[5] + original[6] == |dice|
  {
    FaceCountsSum(dice);
  }

  /** The inner loop of the deal: `original_dice[face_value] += 1` for every die of one hand. */
  method TallyHand(original: map<int, int>, hand: seq<int>) returns (counted: map<int, int>)
    requires original.Keys == {1, 2, 3, 4, 5, 6} && IsHand(hand)
    ensures counted.Keys == {1, 2, 3, 4, 5, 6}
    ensures forall f :: 1 <= f <= 6 ==> counted[f] == original[f] + Count(hand, f)
  {
    counted := original;
    for j := 0 to |hand|
      invariant counted.Keys == {1, 2, 3, 4, 5, 6}
      invariant forall f :: 1 <= f <= 6 ==> counted[f] == original[f] + Count(hand[..j], f)
    {
      var faceValue := hand[j];
      assert hand[..j + 1] == hand[..j] + [faceValue];
      forall f | 1 <= f <= 6
        ensures Count(hand[..j + 1], f) == Count(hand[..j], f) + (if faceValue == f then 1 else 0)
      {
        CountAppend(hand[..j], faceValue, f);
      }
      counted := counted[faceValue := counted[faceValue] + 1];
    }
    assert hand[..|hand|] == hand;
  }

  /** The dice dealt to seats 0..k-1, in seat order. */
  function DealtPool(numDice: nat, roll: (nat, nat) -> nat, k: nat): (pool: seq<int>)
    ensures |pool| == k * numDice && IsHand(pool)
  {
    if k == 0 then []
    else
      var pool := DealtPool(numDice, roll, k - 1) + Dealt(numDice, roll, k - 1);
      assert k * numDice == (k - 1) * numDice + numDice;
      pool
  }

  /**
   * The deal of `simulate_game`: every seat 0..n-1 gets `roll_dice(num_dice)`,
   * and `original_dice` counts the faces of all dealt dice.
   */
  method DealHands(numPlayers: nat, numDice: nat, roll: (nat, nat) -> nat)
    returns (hands: Hands, original: map<int, int>)
    ensures forall i :: i in hands <==> 0 <= i < numPlayers
    ensures forall i: nat :: i < numPlayers ==> hands[i] == Dealt(numDice, roll, i)
    ensures AllDice(hands, numPlayers) == DealtPool(numDice, roll, numPlayers)
    ensures Tally(original, DealtPool(numDice, roll, numPlayers))
  {
    hands := map[];
    original := map[1 := 0, 2 := 0, 3 := 0, 4 := 0, 5 := 0, 6 := 0];
    for i := 0 to numPlayers
      invariant forall p :: p in hands <==> 0 <= p < i
      invariant forall p: nat :: p < i ==> hands[p] == Dealt(numDice, roll, p)
      invariant AllDice(hands, i) == DealtPool(numDice, roll, i)
      invariant Tally(original, DealtPool(numDice, roll, i))
    {
      hands, original := DealSeat(numDice, roll, i, hands, original);
    }
  }

  /** One round of the deal: seat i gets its hand, and its faces join the tally. */
  method DealSeat(numDice: nat, roll: (nat, nat) -> nat, i: nat, hands: Hands, original: map<int, int>)
    returns (hands': Hands, original': map<int, int>)
    requires forall p :: p in hands <==> 0 <= p < i
    requires AllDice(hands, i) == DealtPool(numDice, roll, i)
    requires Tally(original, DealtPool(numDice, roll, i))
    ensures hands' == hands[i := Dealt(numDice, roll, i)]
    ensures AllDice(hands', i + 1) == DealtPool(numDice, roll, i + 1)
    ensures Tally(original', DealtPool(numDice, roll, i + 1))
  {
    var hand := Dealt(numDice, roll, i);
    hands' := hands[i := hand];
    AllDiceFrame(hands, hands', i);
    assert AllDice(hands', i + 1) == AllDice(hands', i) + hand;
    var pool := DealtPool(numDice, roll, i);
    assert DealtPool(numDice, roll, i + 1) == pool + hand;
    original' := TallyHand(original, hand);
    forall f | 1 <= f <= 6
      ensures original'[f] == Count(pool + hand, f)
    {
      CountConcat(pool, hand, f);
    }
  }

  // ---------------------------------------------------------------------------
  // Losing a challenge.
  // ---------------------------------------------------------------------------

  /** Removing the die at position i takes exactly that die out of the hand. */
  lemma DropAt(hand: seq<int>, i: int)
    requires 0 <= i < |hand|
    ensures multiset(hand[..i] + hand[i + 1..]) == multiset(hand) - multiset{hand[i]}
    ensures IsHand(hand) ==> IsHand(hand[..i] + hand[i + 1..])
  {
    assert hand == hand[..i] + [hand[i]] + hand[i + 1..];
    var rest := hand[..i] + hand[i + 1..];
    if IsHand(hand) {
      forall k | 0 <= k < |rest|
        ensures IsFace(rest[k])
      {
        if k < i {
          assert rest[k] == hand[k];
        } else {
          assert rest[k] == hand[k + 1];
        }
      }
    }
  }

  /** `hand.pop(random.randint(0, len(hand) - 1))`: the hand without one of its dice. */
  function DropDie(hand: seq<int>, draw: nat): (rest: seq<int>)
    requires |hand| >= 1
    ensures |rest| == |hand| - 1
    ensures exists i :: 0 <= i < |hand| && multiset(rest) == multiset(hand) - multiset{hand[i]}
    ensures IsHand(hand) ==> IsHand(rest)
  {
    var i := RandInt(0, |hand| - 1, draw);
    var rest := hand[..i] + hand[i + 1..];
    DropAt(hand, i);
    rest
  }

  /**
   * The loser of a challenge pays: under the standard rule they leave the table
   * with their hand; under the attrition rule they lose one die, and leave only
   * when that was their last.
   */
  function Resolve(hands: Hands, active: set<int>, loser: int, attrition: bool, draw: nat): (r: (Hands, set<int>))
    requires active == hands.Keys && loser in active && WellFormed(hands)
    ensures r.1 == r.0.Keys && r.1 <= active && WellFormed(r.0)
    ensures forall p :: p in active && p != loser ==> p in r.1 && r.0[p] == hands[p]
    ensures !attrition ==> r.1 == active - {loser}
    ensures attrition ==> (loser in r.1 <==> |hands[loser]| >= 2)
    ensures attrition && loser in r.1 ==>
              |r.0[loser]| == |hands[loser]| - 1 && multiset(r.0[loser]) <= multiset(hands[loser])
    ensures SizeSum(r.0, r.1) == SizeSum(hands, active) - (if attrition then 1 else |hands[loser]|)
    ensures Descends(r.0, hands, attrition)
  {
    if attrition then LoseDie(hands, active, loser, draw) else Expel(hands, active, loser)
  }

  /**
   * `later` is what challenges can leave of `earlier`: the same or fewer seats,
   * each hand a sub-multiset of the earlier one, and the very same hand under
   * the standard rule, which never takes a die from a player who stays.
   */
  predicate Descends(later: Hands, earlier: Hands, attrition: bool) {
    forall p :: p in later ==>
      p in earlier && multiset(later[p]) <= multiset(earlier[p]) && (!attrition ==> later[p] == earlier[p])
  }

  /** Descent through successive challenges composes. */
  lemma DescendsTrans(a: Hands, b: Hands, c: Hands, attrition: bool)
    requires Descends(a, b, attrition) && Descends(b, c, attrition)
    ensures Descends(a, c, attrition)
  {
  }

  /** The standard rule: the loser leaves the table with their hand. */
  function Expel(hands: Hands, active: set<int>, loser: int): (r: (Hands, set<int>))
    requires active == hands.Keys && loser in active && WellFormed(hands)
    ensures r.1 == r.0.Keys && r.1 == active - {loser} && WellFormed(r.0)
    ensures forall p :: p in r.1 ==> r.0[p] == hands[p]
    ensures SizeSum(r.0, r.1) == SizeSum(hands, active) - |hands[loser]|
  {
    Eliminate(hands, active, loser);
    (hands - {loser}, active - {loser})
  }

  /** The attrition rule: the loser drops one die, and leaves the table with their last one. */
  function LoseDie(hands: Hands, active: set<int>, loser: int, draw: nat): (r: (Hands, set<int>))
    requires active == hands.Keys && loser in active && WellFormed(hands)
    ensures r.1 == r.0.Keys && WellFormed(r.0)
    ensures r.1 == if |hands[loser]| >= 2 then active else active - {loser}
    ensures forall p :: p in r.1 && p != loser ==> r.0[p] == hands[p]
    ensures loser in r.1 ==>
              |r.0[loser]| == |hands[loser]| - 1 && multiset(r.0[loser]) <= multiset(hands[loser])
    ensures SizeSum(r.0, r.1) == SizeSum(hands, active) - 1
  {
    var hand := DropDie(hands[loser], draw);
    var updated := hands[loser := hand];
    SizeSumUpdate(hands, active, loser, hand);
    if |hand| == 0 then
      Eliminate(updated, active, loser);
      (updated - {loser}, active - {loser})
    else
      assert updated.Keys == active;
      (updated, active)
  }

  /** Taking a player off the table removes exactly their dice from play. */
  lemma Eliminate(hands: Hands, active: set<int>, loser: int)
    requires active == hands.Keys && loser in active
    ensures (hands - {loser}).Keys == active - {loser}
    ensures SizeSum(hands - {loser}, active - {loser}) == SizeSum(hands, active) - |hands[loser]|
  {
    SizeSumRemove(hands, active, loser);
    SizeSumFrame(hands, hands - {loser}, active - {loser});
  }
}
