# Liar's Dice, modelled in Dafny

This project models the game logic of a Python Liar's Dice simulator.

Players sit at seats `0..n-1`, each holding a hand of dice. In turn, each player either bids or calls "liar". A bid `[quantity, face]` claims that at least `quantity` dice on the table show `face`. Calling "liar" challenges the previous bid.

A die showing 1 is a wildcard. It counts toward every other face, but for face 1 only the 1s themselves count. A challenge is valid when the bid claims more dice than this "effective count" over all dice in play.

The loser leaves the game:
- after a valid challenge, the loser is the bidder;
- after an invalid one, it is the challenger;
- under the attrition rule of the current engine, the loser instead drops one random die, and leaves with the last one.

The game goes on until one player is left.

## Modules

- `Chance` (chance.dfy): randomness as explicit input. Every `random.randint`, `random.choice` and `roll_dice` call becomes a raw natural-number draw that the caller supplies. The model maps each draw into the range the program draws from, and proves both that the result lies in that range and that every value of the range is reachable. An `Oracle` carries all draws of one game.
- `GameRules` (game_rules.dfy): the shared data, the effective count, the verdict and `roll_dice`.
  - The data: `Bid`, `Action`, `Turn`, the `Error` exceptions and `Result`.
  - `valid_challenge` appears three times, identically: game_rules.py:21-36, game_play_rule.py:20-34 and function.py:26-40. It is modelled once, as `GameRules.ValidChallenge`, and every engine uses that one definition.
- `BidOrder` (bid_order.dfy): the lexicographic escalation order, the in-bounds test, the test `valid_bid` applies, and the "room above a bid" measure that makes every game end.
- `GameStrategies` (game_strategies.dfy): the configurable `Strategy` of game_strategies.py.
  - Escalation: `random_bid`, and `inform_bid` with `preferred_faces`.
  - The liar decision: `liar_decide`.
  - Their composition: `make_action`.
- `Table` (table.dfy): the seating and hand-table operations all three engines share.
  - Dealing and tallying the initial faces.
  - `update_all_dice` and the total number of dice in play.
  - The wrap-around scans for the previous and the next active player.
  - Resolving a challenge under either rule.
- `GamePlayRule` (game_play_rule.py's engine): the game loop with its bid record and liar record, under both rules.
- `RandomPlay` (function.py): the older random-only engine, with `random_bid_choice`.
- `Strategies` (strategies.py): the older subclass-based policies.
- `Simulation` (simulation.py): the older strategy-driven engine.
- `ValidationSetting` (validation_setting.py): the class `ValidationVariables`.
  - Its counters.
  - The bid-sequence test `valid_bid`.
  - The scan of a bid record for rounds whose bids do not increase.

## Properties proved

Every engine loop terminates. Each turn strictly decreases the pair "(dice in play, room above the current bid)". A bid lowers the room, because every strategy's escalation outbids the bid in force and stays within `(total dice, 6)`. A challenge removes a player or a die.

Every engine keeps the current player active at each loop head, with one exception: function.py's engine accepts an unseated starter, so there the current player is known to be active only from the second turn on. Every engine's winner is the one player left. That player's hand is what remains of their dealt hand: exactly the dealt hand under elimination, and a sub-multiset of it under attrition. The current engine, and function.py's engine, also return:
- records whose bids escalate within every round;
- a challenge that always answers a bid;
- a liar record that logs exactly the challenges;
- a loop counter `bid_times` equal to `len(bid_record)`;
- `n - 1` challenges under elimination;
- between `n*d - d` and `n*d - 1` challenges under attrition.

## Model

| member | source | states |
|---|---|---|
| Chance.RandInt | game_rules.py:18 | `random.randint(lo, hi)` yields a value in `[lo, hi]` |
| Chance.RandIntOnto | game_strategies.py:96 | every value of `[lo, hi]` is drawn by some raw draw |
| Chance.Choice | game_play_rule.py:80 | `random.choice(xs)` yields an element of `xs` |
| Chance.ChoiceOnto | game_strategies.py:122 | every element of `xs` is chosen by some raw draw |
| GameRules.Count | function.py:19-24 | `Counter(dice)[v]` never exceeds the number of dice |
| GameRules.CountIsMultiplicity | function.py:19-24 | the count of `v` is the multiplicity of `v` in the multiset of the dice |
| GameRules.CountConcat | game_play_rule.py:37-42 | counting over two hands put together is the sum of the two counts |
| GameRules.EffectiveCountOfOnes | game_rules.py:31-32 | for face 1, the actual quantity is the number of 1s alone |
| GameRules.EffectiveCountWild | game_rules.py:33-34 | for any other face, it is the count of that face plus the count of 1s |
| GameRules.EffectiveCountBound | game_rules.py:30-34 | the actual quantity never exceeds the number of dice |
| GameRules.ValidChallenge | game_rules.py:21-36 | a `ValueError` exactly when the quantity or the face is not an integer; otherwise true iff the quantity exceeds the effective count |
| GameRules.ChallengePermutation | game_rules.py:30 | the verdict depends only on the multiset of dice: reordering `all_dice` does not change it |
| GameRules.ChallengeMonotone | game_rules.py:36 | with face and dice fixed, a larger quantity can turn a false verdict true, never a true one false |
| GameRules.RollDice | game_rules.py:11-18 | `roll_dice(n)` returns exactly `n` dice, each in 1..6 |
| GameRules.RollDiceOnto | game_rules.py:11-18 | every hand of `n` faces in 1..6 is a possible roll |
| BidOrder.OutbidsShrinksRoom | game_strategies.py:124-141 | an in-bounds escalation leaves strictly less room above the current bid |
| BidOrder.OpeningShrinksRoom | game_strategies.py:93-98 | an opening bid leaves less room than no bid at all |
| BidOrder.OutbidsIncreases | validation_setting.py:77 | every lexicographic escalation passes `valid_bid`'s test on a pair |
| BidOrder.OutbidsStrictOrder | game_strategies.py:124-141 | escalation is irreflexive and transitive |
| BidOrder.TopBid | game_strategies.py:115-120 | the only in-bounds bid with no in-bounds escalation is "all dice show 6" |
| GameStrategies.NewStrategy | game_strategies.py:23-56 | `ValueError` exactly when the threshold is not one of "Random", "Normal", "Optimal"; otherwise the three fields are stored unchanged. The formals carry the source's defaults `False`, `"Random"`, `False` |
| GameStrategies.DefaultStrategy | game_strategies.py:23-40 | `Strategy()` with every default builds `prefer_bid=False`, `liar_threshold="Random"`, `conservative_increase=False` |
| GameStrategies.Remove | game_strategies.py:108 | `list.remove` of a present element shortens the list by one |
| GameStrategies.RemovedForSix | game_strategies.py:106-109 | for face 6 the categories left are "same face value" and "higher quantity, smaller face" |
| GameStrategies.RemovedForOne | game_strategies.py:110-112 | for face 1 "higher quantity, smaller face" is removed |
| GameStrategies.AvailableCategories | game_strategies.py:102-116 | a category is offered exactly when it is legal for the bid: raising the face needs face < 6, raising the quantity needs quantity < total, a smaller face needs face > 1 |
| GameStrategies.AvailableCategoriesLegal | game_strategies.py:102-116 | the same equivalence, for all categories at once |
| GameStrategies.OpeningQuantity | game_strategies.py:95-96 | the opening quantity lies in `[total//10+1, max(total//10+1, total//2)]`, and within `1..total` when there are dice |
| GameStrategies.OpeningRangeOfTwenty | game_strategies.py:66-68 | with 20 dice the opening quantity is exactly 3..10 |
| GameStrategies.IncreaseQuantity | game_strategies.py:85-90 | the raised quantity lies in `(q, total]`, and is `q+1` under `conservative_increase` |
| GameStrategies.RandomBid | game_strategies.py:93-141 | opening: quantity in the opening range, face in 1..6. Later: "liar" iff the bid is `[total, 6]`; any bid outbids the previous one and stays in bounds; at full quantity it keeps the quantity and raises the face; a conservative raise adds exactly 1 |
| GameStrategies.RandomBidOnto | game_strategies.py:122-141 | without `conservative_increase`, every in-bounds escalation of the bid is a possible result |
| GameStrategies.Insert | game_strategies.py:171 | insertion keeps the list sorted by count and adds exactly one item |
| GameStrategies.ConsSorted | game_strategies.py:171 | an item before every item of a sorted list can be put in front of it |
| GameStrategies.HeadBefore | game_strategies.py:171 | the head of a sorted list comes before everything inserted behind it |
| GameStrategies.SortByCount | game_strategies.py:171 | a stable sort by count, descending: sorted, and a permutation of its input |
| GameStrategies.PreferredFaces | game_strategies.py:160-173 | exactly the faces 1..6, each with its count plus the 1s when the face is not 1, by count descending, ties by ascending face |
| GameStrategies.PreferredFacesExample | game_strategies.py:154-155 | `[1,1,2,3,3,6]` gives `{3:4, 2:3, 6:3, 1:2, 4:2, 5:2}` in that order |
| GameStrategies.ExampleCounts | game_strategies.py:154-155 | the effective counts of `[1,1,2,3,3,6]`, faces 1 to 6 |
| GameStrategies.MaxCount | game_strategies.py:209 | the maximum of the preference counts |
| GameStrategies.FacesWith | game_strategies.py:210 | exactly the faces with a given count, ascending |
| GameStrategies.MaxEffective | game_strategies.py:209 | the largest effective count over a range of faces of the own dice |
| GameStrategies.FacesCounting | game_strategies.py:210 | exactly the faces of the own dice with a given effective count, ascending |
| GameStrategies.TopFacesOf | game_strategies.py:204-210 | the faces tied for the highest effective count, ascending, never empty |
| GameStrategies.TopIsMax | game_strategies.py:204-210 | a face is top iff its effective count is the maximum, and some face reaches it |
| GameStrategies.TopFacesMatch | game_strategies.py:213-214 | the top faces read off `preferred_faces` are the top faces of the own dice |
| GameStrategies.FacesWithMatch | game_strategies.py:210 | filtering the preference by count is the same as filtering the own dice by effective count |
| GameStrategies.FirstAbove | game_strategies.py:227-231 | the first top face above the current face, if one exists |
| GameStrategies.FirstAboveSmallest | game_strategies.py:228-231 | in an ascending list, the first face above the current face is the smallest one |
| GameStrategies.FirstTopAbove | game_strategies.py:226-233 | the scan finds the smallest top face above the current face, and finds none iff every top face is at most the current face |
| GameStrategies.Informed | game_strategies.py:217-244 | opening in the opening range; later "liar" iff quantity == total and no top face exceeds the face; every bid outbids the previous one and stays in bounds |
| GameStrategies.InformedFaces | game_strategies.py:217-244 | the opening uses the smallest top face. With a top face above the current face it keeps the quantity on the smallest such face. Otherwise it raises the quantity (by 1 when conservative) on the smallest top face |
| GameStrategies.ScanTopFaces | game_strategies.py:227-231 | the early-return loop finds exactly `FirstAbove` |
| GameStrategies.InformBid | game_strategies.py:204-244 | the method computes `Informed` |
| GameStrategies.NewBid | game_strategies.py:275-278 | opening in range; later "liar" exactly when the chosen escalation is exhausted; every bid outbids the previous one and stays in bounds |
| GameStrategies.LiarDecide | game_strategies.py:309-335 | Random: the coin. Normal: "liar" iff `q > total//2`. Optimal: "liar" iff `q > ownEff(face) + (total - len(own))*0.5`, computed without floating point |
| GameStrategies.LiarDecideExamples | game_strategies.py:296-307 | the documented Normal and Optimal decisions for 20 dice and `[1, 3, 3, 6]` |
| GameStrategies.MakeAction | game_strategies.py:347-353 | never "liar" without a bid. With a bid, "liar" iff `liar_decide` says so or `new_bid` has no escalation left; every bid outbids the previous one and stays in bounds |
| Table.ScanForward | game_play_rule.py:155-156 | the scan stops at the nearest active seat at or after the current one, wrapping |
| Table.NextPlayer | game_play_rule.py:152-156 | the turn moves to the nearest active seat strictly after the current one, wrapping |
| Table.PreviousPlayer | game_play_rule.py:109-115 | the nearest active seat strictly before the current one, wrapping; it differs from the current player when two are active |
| Table.AnotherActive | game_play_rule.py:94 | with two or more players active, someone other than a given player is active |
| Table.ForwardReaches | game_play_rule.py:155-156 | every seat is reached by stepping forward fewer than `n` times |
| Table.BackwardReaches | game_play_rule.py:110-115 | every other seat is reached by stepping back between 1 and `n-1` times |
| Table.UpdateAllDice | game_play_rule.py:37-42 | the hands of all seated players, concatenated in seat order; its length is the sum of the hand sizes |
| Table.AllDiceSizeSeated | simulation.py:11-16 | the pooled dice number the sum of the hand sizes |
| Table.AllDiceIsHand | game_play_rule.py:37-42 | the pooled dice all show faces |
| Table.TotalDice | game_play_rule.py:99-101 | `total_dice` is the sum of the active hands' sizes, in any iteration order |
| Table.SizeSumAtLeastCount | game_play_rule.py:99-101 | with every hand non-empty, there are at least as many dice as active players |
| Table.Dealt | game_play_rule.py:69 | each player is dealt `num_dice` faces |
| Table.DealtPool | game_play_rule.py:66-72 | the dealt dice of players `0..k-1` number `k*num_dice` and are all faces |
| Table.TallyHand | game_play_rule.py:70-72 | adding a hand to `original_dice` keeps the keys 1..6 and adds each face's count |
| Table.TallySum | game_play_rule.py:66-72 | the tallied face counts sum to the number of dice dealt |
| Table.FaceCountsSum | game_play_rule.py:70-72 | the counts of the six faces of a hand sum to its size |
| Table.DealHands | game_play_rule.py:66-72 | seats exactly `0..n-1`, each with its dealt hand; the pool is the deal; `original_dice` tallies it |
| Table.DealSeat | game_play_rule.py:68-72 | one seat of the deal: that seat gets its dealt hand, the pool grows by it, and `original_dice` counts it |
| Table.DropDie | game_play_rule.py:130 | popping a random die removes exactly one die of the hand |
| Table.DropAt | game_play_rule.py:130 | removing the die at one position leaves a hand whose multiset is the old one minus that die |
| Table.Resolve | game_play_rule.py:120-149 | standard rule: the loser alone leaves. Attrition rule: the loser's hand loses exactly one die, and the loser leaves iff it had one. Every other hand is unchanged, and the dice in play drop accordingly |
| Table.Expel | game_play_rule.py:123-127 | standard rule: the loser and its hand leave, every other hand stays, and the dice in play drop by the loser's hand |
| Table.LoseDie | game_play_rule.py:128-134 | attrition rule: the loser's hand loses one die; it leaves iff that was its last; every other hand stays; one die fewer in play |
| Table.Eliminate | game_play_rule.py:125-126 | removing a seat removes it from the active set and its hand from the dice in play |
| Table.DescendsTrans | game_play_rule.py:117-149 | what successive challenges leave of the hands composes: fewer seats, sub-multiset hands, unchanged hands under elimination |
| GamePlayRule.Challenges | game_play_rule.py:117 | a record holds at most as many challenges as entries |
| GamePlayRule.RecordBid | game_play_rule.py:105-107 | appending a bid that outbids the bid in force keeps the record escalating and makes it the bid in force |
| GamePlayRule.RecordChallenge | game_play_rule.py:117-136 | appending a challenge of the bid in force and its log entry keeps the bid and liar records consistent, and resets the bid |
| GamePlayRule.LastPlayer | game_play_rule.py:94 | one active player left: the set is that player, and the dice in play are theirs |
| GamePlayRule.Opening | game_play_rule.py:66-88 | after the deal every hand has `num_dice` faces, and the loop invariant holds with no bid and empty records |
| GamePlayRule.AfterBid | game_play_rule.py:150-151 | a bid keeps the loop invariant and lowers the room above the current bid |
| GamePlayRule.AfterChallenge | game_play_rule.py:117-149 | a challenge keeps the loop invariant, resets the bid, lowers the dice in play, and leaves someone active |
| GamePlayRule.ChallengeTurn | game_play_rule.py:117-149 | a "liar" turn logs the verdict over the pooled dice. The loser is the previous player after a valid challenge, else the challenger, and it is resolved by the chosen rule. The bid resets, the loop invariant holds again, and the dice in play drop |
| GamePlayRule.PlayTurn | game_play_rule.py:99-156 | one pass of the loop keeps its invariant. With a bid in force, a "liar" from the strategy's `liar_decide` makes the action "liar". Otherwise the action is `inform_bid`'s or `random_bid`'s result, as `prefer_bid` selects. The action is appended to the record, and the turn passes to the nearest active seat after the player. A "liar" resets the bid and makes the loser pay under the rule in force: the nearest active seat before the player after a valid challenge, else the challenger. A bid becomes the bid in force with less room above it and changes nothing else |
| GamePlayRule.LiarStep | game_play_rule.py:117-156 | a challenge pass keeps the loop invariant. The previous player pays after a valid challenge, the challenger after an invalid one, under the rule in force. Dice leave play, and the turn moves to the nearest active seat after the challenger |
| GamePlayRule.BidStep | game_play_rule.py:150-156 | a bid pass keeps the loop invariant with that bid in force, lowers the room above the bid, and moves the turn on |
| GamePlayRule.PlayGame | game_play_rule.py:94-158 | the loop ends with one player left, who is the winner: what is left of the deal is that player's hand alone, a sub-multiset of the dealt hand, and under elimination exactly the dealt hand. `bid_times`, counted by the loop, is `len(bid_record)`. The record begins with the first player, ends in a challenge and escalates within rounds; the liar record logs the challenges; `n-1` challenges under elimination, `n*d-d..n*d-1` under attrition |
| GamePlayRule.SimulateGame | game_play_rule.py:44-158 | `special_rule` defaults to off and `first_caller` to -1, as in the source's signature. `ValueError` iff `num_players < 2` or `num_dice <= 0`; an unseated `first_caller` fails. `first_player == first_caller` when given; the loop's `bid_times` equals `len(bid_record)`; `original_dice` tallies the deal, plus `PlayGame`'s guarantees |
| RandomPlay.Moves | function.py:62-75 | the strategy list after its removals: "liar" is offered iff quantity < total, a category iff it is legal |
| RandomPlay.RandomBidChoice | function.py:42-103 | opening: quantity in 2..total, face in 1..6. At full quantity: "liar" iff face == 6, else the same quantity with a higher face. Any bid outbids the previous one and stays in bounds |
| RandomPlay.RandomBidChoiceOnto | function.py:80-101 | every in-bounds escalation is a possible result |
| RandomPlay.RandomBidChoiceMayChallenge | function.py:55-78 | "liar" is possible iff quantity < total or face == 6 |
| RandomPlay.PassTurn | function.py:172-174 | appending an action keeps "each valid challenger opens the next round" |
| RandomPlay.LogChallenge | function.py:187-192 | a logged valid challenge obliges its challenger to act next |
| RandomPlay.Advance | function.py:205-211 | the next active seat after the current one, for any starting id, seated or not |
| RandomPlay.ChallengeTurn | function.py:184-201 | the verdict over the pooled dice is logged. After a valid challenge the nearest active seat before the challenger leaves, and the challenger keeps the turn. After an invalid one the challenger leaves, and the turn moves to the nearest active seat from the challenger's. The bid resets and the dice in play drop |
| RandomPlay.PlayGame | function.py:163-213 | the one player left is the winner and still holds the hand they were dealt; the loop's `bid_times` equals `len(bid_record)`; escalating records; every valid challenger opens the next round; `n-1` challenges |
| RandomPlay.SimulateGame | function.py:113-213 | `starter` defaults to -1, as in the source's signature. `ValueError` iff `num_players < 2` or `num_dice <= 0`; `first_player == starter` when given, else a seat; the loop's `bid_times` equals `len(bid_record)`; `original_dice` tallies the deal, plus `PlayGame`'s guarantees |
| Strategies.OpeningCap | strategies.py:33 | `max(2, total//2)`, at most `total` when there are two dice or more |
| Strategies.NewBid | strategies.py:24-77 | opening: quantity in `[2, max(2, total//2)]`, face 1..6. Later: "liar" iff the bid is `[total, 6]`, else a bid that outbids and stays in bounds |
| Strategies.NewBidOnto | strategies.py:56-77 | every in-bounds escalation is a possible result |
| Strategies.RandomMakeBid | strategies.py:81-86 | "liar" iff the coin says so or the bid is `[total, 6]`; no check for a missing bid |
| Strategies.RandomMayOpenWithLiar | strategies.py:81-86 | "liar" as an opening move is possible |
| Strategies.ThresholdMakeBid | strategies.py:89-99 | always bids without a current bid; otherwise "liar" iff `q > total//2` |
| Strategies.OptimalVerdictAsWritten | strategies.py:108-130 | no decision iff the face is 1; otherwise "liar" iff `q > total*(2/6) + ownEff` |
| Strategies.OptimalFallsThrough | strategies.py:110-130 | a bid on face 1 gets no decision |
| Strategies.OptimalVerdict | strategies.py:124-127 | "liar" iff `q > total/3 + ownEff(face)`, for every face |
| Strategies.OptimalVerdictExtends | strategies.py:110-127 | the corrected test agrees with the written one wherever that one decides |
| Strategies.OptimalPreferredFaces | strategies.py:167-177 | a permutation of 2..6, by own count descending (all faces get the same wildcard bonus), ties by ascending face |
| Strategies.SortedPreferenceFaces | strategies.py:172-176 | sorting the (face, count + wildcards) pairs of faces 2..6 gives each face once, by own count descending and then ascending face |
| Strategies.OptimalInformBid | strategies.py:141-157 | for face < 6, the best-preferred face above it, at `q+1` if `q < total` else `q`; for face 6, `[q+1, 6]` if `q < total`, else "liar" |
| Strategies.OptimalMakeBidAsWritten | strategies.py:103-157 | opening by `new_bid`. Returns None exactly for a bid on face 1. Otherwise "liar" iff the threshold says so or the bid is `[total, 6]`. A bid outbids and stays in bounds. Below face 6 it takes the best-preferred face above, with one more die while that fits. On face 6 it is one more die on face 6 |
| Strategies.OptimalMakeBid | strategies.py:103-157 | opening by `new_bid`. Later, "liar" iff the corrected threshold says so or the bid is `[total, 6]`. A bid outbids and stays in bounds. Below face 6 it takes the best-preferred face above, with one more die while that fits. On face 6 it is one more die on face 6 |
| Strategies.MakeBid | strategies.py:79-130 | with Optimal's corrected decision: the answer is `RandomStrategy.make_bid`'s, `ThresholdStrategy.make_bid`'s or the Optimal answer, according to the subclass. Only the random strategy can open with "liar". Every later bid outbids and stays in bounds, and `[total, 6]` is always challenged |
| Strategies.MakeBidAsWritten | strategies.py:79-130 | as written: the answer is the subclass's own `make_bid`. There is no action exactly when an Optimal player faces a bid on face 1. Otherwise only the random strategy can open with "liar", and every later bid outbids and stays in bounds |
| Simulation.PlayGame | simulation.py:43-85 | ends with the one player left as the winner, holding the hand they were dealt, or with the error a "liar" without a bid raises, which needs a random strategy at the table |
| Simulation.ChallengeTurn | simulation.py:62-76 | the verdict over the pooled dice; the loser is the nearest active seat before the challenger after a valid challenge, else the challenger, and leaves with their hand; the challenger keeps the turn after a valid challenge, else the nearest active seat from theirs takes it |
| Simulation.SimulateGame | simulation.py:18-85 | `ValueError` iff `num_players < 2` or `num_dice <= 0`; with no random strategy at the table the game always ends with a seated winner |
| ValidationSetting.IncreasingConcat | validation_setting.py:74-79 | two bid lists join into a valid one iff both are valid and the seam increases |
| ValidationSetting.IncreasingPrefix | validation_setting.py:74-79 | every prefix of a valid bid list is valid |
| ValidationSetting.IncreasingExamples | validation_setting.py:61-71 | the documented `valid_bid` examples: three True, two False |
| ValidationSetting.OpenRoundLast | validation_setting.py:94-104 | the open round ends with the record's last bid |
| ValidationSetting.EscalatingRecordsPass | validation_setting.py:94-104 | a record produced by the engines escalates, so the bid check never warns on it |
| ValidationSetting.MissedWarning | validation_setting.py:94-104 | a record with a round `[3,3] → [2,2]` closed by "liar" is one the check is meant to warn on |
| ValidationSetting.ValidationVariables.constructor | validation_setting.py:33-51 | zeroed win and first-player counters for players `0..n-1`, face totals for 1..6, and counts for each number of 1s in `0..n*d` |
| ValidationSetting.ValidationVariables.ValidBid | validation_setting.py:54-80 | true iff every consecutive pair raises the quantity or the face; lists of 0 or 1 bids are valid |
| ValidationSetting.ValidationVariables.CheckBidsAsWritten | validation_setting.py:94-104 | the as-written check never warns |
| ValidationSetting.ValidationVariables.CheckBids | validation_setting.py:94-104 | warns exactly when some "liar" closes a round whose bids do not increase |
| ValidationSetting.ValidationVariables.Update | validation_setting.py:82-114 | the flag is the corrected check's verdict on the record; the winner's counter and the first player's counter each rise by 1; every face total rises by the deal's count of that face; the counter for the number of 1s dealt rises by 1; nothing else changes |
| ValidationSetting.ValidationVariables.AddOriginal | validation_setting.py:111-114 | every face total rises by that face's count in the whole deal; whenever the game's distribution has key 1, the counter for its number of 1s (0 included) rises by 1 |

## Left out

- main.py, the driver that repeats games and prints win percentages, is not part of this model. It pairs strategies.py with simulation.py. There, simulation.py:51 passes three arguments to `make_bid`, while strategies.py:13, 81, 89 and 103 declare four (`dice_counts` included). Each side is modelled against its own signature: the `make_bid` models take no `dice_counts`, which no variant reads.
- The statistics and plots of validation_setting.py are left out: the DataFrames (lines 39-49), the liar-record tallies (116-138) and the `check_*` methods (140-259). Line 124 multiplies the recorded `active_players` set by an integer, which Python rejects.
- The distribution of randomness is left out. Every draw is "some value in range", supplied by an `Oracle`. The unused `random.choices` estimate of strategies.py:119 is dropped, and so is function.py:58's coin, which has no effect.
- Floating point is not modelled. The Optimal thresholds of game_strategies.py:329 and strategies.py:124 use exact scaled integer comparisons.
- Python's set iteration order is not modelled. The sum of hand sizes is the same in any order. `next(iter(active_players))` picks the only member.
- Record aliasing is not modelled. A liar-record entry stores the live `active_players` set (game_play_rule.py:122, 136; function.py:189, 195). The model logs `(bid_times, challenger, bid, verdict)` and claims nothing about the set.
- `__main__` blocks and print statements are left out. `ValidationSetting.ValidationVariables.Update` returns as a flag whether the corrected check would warn; see its own line below.
- `int(value)` on the current bid (function.py:51) is not modelled: bids are integers throughout.
- Each engine computes the previous player before it looks at the action. RandomPlay and Simulation scan for it only on a challenge; the scan has no effect otherwise. GamePlayRule computes it before the branch.
- Simulation.PlayGame: it numbers the oracle's draws by turn, and its contract does not restate the record properties, since simulation.py keeps no record.
- GameStrategies.RandomBid, Informed, NewBid and MakeAction require the current bid to be in bounds (quantity in `1..total`, face in 1..6), and so do the later-bid members of Strategies and RandomPlay. The engines only ever pass such bids. For other bids the source raises from `random.randint` on an empty range, or bids a lower quantity.
- GamePlayRule.SimulateGame, Simulation.SimulateGame: they require a strategy for every seat, where Python raises `KeyError`/`IndexError`.
- ValidationSetting.ValidationVariables.Update requires that the winner, the first player, each face and the number of 1s are keys of their counters, where Python raises `KeyError`. It leaves out the `liar_record` and `bid_times` arguments, which are read only by the omitted tallies.
- GamePlayRule.SimulateGame: a `first_caller` that is not seated makes the source read a missing hand (game_play_rule.py:104), a `KeyError`. The model returns `UnknownStarter`. function.py reads no hand, so `RandomPlay.SimulateGame` accepts any starter.
- The validator's print inside the bid check, and its `break` out of the single-entry dictionary, are modelled only through the warning flag.
- Strategies.MakeBid, Simulation.PlayGame, Simulation.SimulateGame: they play the corrected Optimal strategy (`OptimalMakeBid`), not the one strategies.py:110-130 defines. As written, an Optimal player facing a bid on face 1 returns `None` (modelled by `MakeBidAsWritten`), and simulation.py:78 then makes `None` the bid in force and passes the turn with no die lost. That outcome is not modelled. So a table of Optimal players whose openings keep landing on face 1 can loop forever in the source, whereas the model's "no random strategy at the table, so the game ends" is proved only of the corrected program.
- ValidationSetting.ValidationVariables.Update: its flag is the corrected check `CheckBids`, which warns iff some round fails to escalate. As written, validation_setting.py:94-104 can never warn (`CheckBidsAsWritten` proves `!warned`), so on a record whose round fails to escalate the model raises a flag where the source prints nothing.
- GamePlayRule.SimulateGame, RandomPlay.SimulateGame: the returned record carries the winner only as a seat number, since that is all `simulate_game` returns. That it is the last player left, holding what remains of their dealt hand, is stated by `PlayGame`, whose final hands are not part of the record.

## Findings

| source | as written | input that shows it | evidently intended | confidence | as-written member | corrected member |
|---|---|---|---|---|---|---|
| strategies.py:110-130 | the whole decision of `OptimalStrategy.make_bid` is indented under `if face_value != 1`, so a bid on face 1 falls off the end and returns `None`; simulation.py then makes `None` the current bid | current bid `[q, 1]` | apply the same expected-value threshold to face 1, counting the own 1s | not executed | Strategies.OptimalMakeBidAsWritten, Strategies.OptimalFallsThrough | Strategies.OptimalMakeBid, Strategies.OptimalVerdict |
| validation_setting.py:94-104 | `bids = []` is reset inside the loop over the record, and each record entry holds one action, so every "liar" checks an empty list and the warning can never fire | `[{0: [3,3]}, {1: [2,2]}, {0: 'liar'}]` | gather a round's bids across entries, check them at each "liar", then start a new round | not executed | ValidationSetting.ValidationVariables.CheckBidsAsWritten, ValidationSetting.MissedWarning | ValidationSetting.ValidationVariables.CheckBids, ValidationSetting.EscalatingRecordsPass |
