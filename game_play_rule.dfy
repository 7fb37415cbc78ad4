/**
 * The current engine, `simulate_game` of game_play_rule.py: players seated
 * 0..n-1 take turns around the table, each bidding or challenging through
 * their configurable strategy, until one player is left.  Under the standard
 * rule the loser of a challenge leaves the game; under the attrition rule
 * (`special_rule`) they lose one die and leave with their last one.
 */
module GamePlayRule {
  import opened Chance
  import opened GameRules
  import opened BidOrder
  import opened GameStrategies
  import opened Table

  /** One entry of `liar_record`: after how many actions, who challenged, which bid, and the verdict. */
  datatype ChallengeOutcome = ChallengeOutcome(bidTimes: int, challenger: int, bid: Bid, valid: bool)

  /** What `simulate_game` returns. */
  datatype GameRecord = GameRecord(
    winner: int,
    firstPlayer: int,
    bidRecord: seq<Turn>,
    liarRecord: seq<ChallengeOutcome>,
    bidTimes: int,
    originalDice: map<int, int>)

  /** The bid in force after a record of actions: the last action if it was a bid, none after a challenge. */
  function CurrentBid(record: seq<Turn>): Option<Bid> {
    if record == [] then None
    else match record[|record| - 1].action
      case Liar => None
      case Propose(b) => Some(b)
  }

  /** Within a round, every bid outbids the bid right before it. */
  predicate Escalates(record: seq<Turn>) {
    forall i :: 0 < i < |record| && record[i - 1].action.Propose? && record[i].action.Propose? ==>
      Outbids(record[i].action.bid, record[i - 1].action.bid)
  }

  /** Every challenge answers the bid made just before it. */
  predicate ChallengesAnswerBids(record: seq<Turn>) {
    forall i :: 0 <= i < |record| && record[i].action.Liar? ==> i > 0 && record[i - 1].action.Propose?
  }

  /** The number of challenges in a record. */
  function Challenges(record: seq<Turn>): (c: nat)
    ensures c <= |record|
  {
    if record == [] then 0
    else Challenges(record[..|record| - 1]) + (if record[|record| - 1].action.Liar? then 1 else 0)
  }

  /**
   * The liar record logs the challenges of the bid record: one entry per
   * challenge, each pointing at its challenge and at the bid it answers.
   */
  predicate LogsChallenges(record: seq<Turn>, liars: seq<ChallengeOutcome>) {
    && |liars| == Challenges(record)
    && forall k :: 0 <= k < |liars| ==>
         2 <= liars[k].bidTimes <= |record| &&
         record[liars[k].bidTimes - 1] == Turn(liars[k].challenger, Liar) &&
         record[liars[k].bidTimes - 2].action == Propose(liars[k].bid)
  }

  /** Recording a bid keeps a record escalating when the bid outbids the one in force. */
  lemma RecordBid(record: seq<Turn>, liars: seq<ChallengeOutcome>, t: Turn)
    requires Escalates(record) && ChallengesAnswerBids(record) && LogsChallenges(record, liars)
    requires t.action.Propose?
    requires CurrentBid(record).Some? ==> Outbids(t.action.bid, CurrentBid(record).value)
    ensures Escalates(record + [t]) && ChallengesAnswerBids(record + [t]) && LogsChallenges(record + [t], liars)
    ensures CurrentBid(record + [t]) == Some(t.action.bid)
  {
    assert (record + [t])[..|record|] == record;
  }

  /** Recording a challenge of the bid in force, and logging it. */
  lemma RecordChallenge(record: seq<Turn>, liars: seq<ChallengeOutcome>, player: int, valid: bool)
    requires Escalates(record) && ChallengesAnswerBids(record) && LogsChallenges(record, liars)
    requires CurrentBid(record).Some?
    ensures var record' := record + [Turn(player, Liar)];
            var liars' := liars + [ChallengeOutcome(|record'|, player, CurrentBid(record).value, valid)];
            Escalates(record') && ChallengesAnswerBids(record') && LogsChallenges(record', liars') &&
            CurrentBid(record') == None
  {
    var record' := record + [Turn(player, Liar)];
    assert record'[..|record|] == record;
  }

  /** The invariant of the game loop beyond the seating. */
  ghost predicate Bookkeeping(
    numPlayers: int, numDice: int, specialRule: bool,
    hands: Hands, active: set<int>, current: Option<Bid>,
    bidRecord: seq<Turn>, liarRecord: seq<ChallengeOutcome>)
    requires active <= hands.Keys
  {
    && (current.Some? ==> InBounds(current.value, SizeSum(hands, active)))
    && current == CurrentBid(bidRecord)
    && Escalates(bidRecord) && ChallengesAnswerBids(bidRecord) && LogsChallenges(bidRecord, liarRecord)
    && (bidRecord == [] ==> |active| == numPlayers)
    && (bidRecord == [] || bidRecord[|bidRecord| - 1].action.Liar? || |active| >= 2)
    && (!specialRule ==> |liarRecord| + |active| == numPlayers)
    && (specialRule ==> |liarRecord| + SizeSum(hands, active) == numPlayers * numDice)
    && (forall p :: p in hands ==> |hands[p]| <= numDice)
  }

  /** With one player left, the dice in play are that player's hand. */
  lemma LastPlayer(hands: Hands, active: set<int>, winner: int)
    requires active <= hands.Keys && |active| == 1 && winner in active
    ensures active == {winner}
    ensures SizeSum(hands, active) == |hands[winner]|
  {
    assert |active - {winner}| == 0;
    assert active == {winner};
    SizeSumRemove(hands, active, winner);
  }

  /** Seats numbered 0..n-1 are n seats. */
  lemma {:induction false} SeatCount(ids: set<int>, n: nat)
    requires forall i :: i in ids <==> 0 <= i < n
    ensures |ids| == n
  {
    if n > 0 {
      SeatCount(ids - {n - 1}, n - 1);
      assert ids == (ids - {n - 1}) + {n - 1};
    } else {
      forall x | x in ids
        ensures false
      {
      }
      assert ids == {};
    }
  }

  /** Right after the deal nothing is recorded, everybody plays and every die is in play. */
  lemma Opening(numPlayers: nat, numDice: nat, specialRule: bool, roll: (nat, nat) -> nat, hands: Hands)
    requires forall i :: i in hands <==> 0 <= i < numPlayers
    requires forall i: nat :: i < numPlayers ==> hands[i] == Dealt(numDice, roll, i)
    requires AllDice(hands, numPlayers) == DealtPool(numDice, roll, numPlayers)
    ensures numDice >= 1 ==> WellFormed(hands)
    ensures Bookkeeping(numPlayers, numDice, specialRule, hands, hands.Keys, None, [], [])
  {
    forall p | p in hands
      ensures IsHand(hands[p]) && |hands[p]| == numDice
    {
      assert hands[p] == Dealt(numDice, roll, p);
    }
    SeatCount(hands.Keys, numPlayers);
    AllDiceSizeSeated(hands, numPlayers);
  }

  /** A bid that stays in bounds and outbids the bid in force keeps the bookkeeping and uses up room. */
  lemma AfterBid(
    numPlayers: int, numDice: int, specialRule: bool,
    hands: Hands, active: set<int>, current: Option<Bid>,
    bidRecord: seq<Turn>, liarRecord: seq<ChallengeOutcome>, player: int, bid: Bid)
    requires active <= hands.Keys && |active| >= 2
    requires Bookkeeping(numPlayers, numDice, specialRule, hands, active, current, bidRecord, liarRecord)
    requires InBounds(bid, SizeSum(hands, active))
    requires current.Some? ==> Outbids(bid, current.value)
    ensures Bookkeeping(numPlayers, numDice, specialRule, hands, active, Some(bid),
                        bidRecord + [Turn(player, Propose(bid))], liarRecord)
    ensures BidRoom(Some(bid), SizeSum(hands, active)) < BidRoom(current, SizeSum(hands, active))
  {
    RecordBid(bidRecord, liarRecord, Turn(player, Propose(bid)));
    if current.None? {
      OpeningShrinksRoom(bid, SizeSum(hands, active));
    } else {
      OutbidsShrinksRoom(current.value, bid, SizeSum(hands, active));
    }
  }

  /** A challenge of the bid in force, once resolved, keeps the bookkeeping and takes dice out of play. */
  lemma AfterChallenge(
    numPlayers: int, numDice: int, specialRule: bool,
    hands: Hands, active: set<int>, current: Option<Bid>,
    bidRecord: seq<Turn>, liarRecord: seq<ChallengeOutcome>, player: int, valid: bool,
    loser: int, draw: nat)
    requires active == hands.Keys && WellFormed(hands) && loser in active && |active| >= 2
    requires Bookkeeping(numPlayers, numDice, specialRule, hands, active, current, bidRecord, liarRecord)
    requires current.Some?
    ensures var outcome := Resolve(hands, active, loser, specialRule, draw);
            && Bookkeeping(numPlayers, numDice, specialRule, outcome.0, outcome.1, None,
                           bidRecord + [Turn(player, Liar)],
                           liarRecord + [ChallengeOutcome(|bidRecord| + 1, player, current.value, valid)])
            && SizeSum(outcome.0, outcome.1) < SizeSum(hands, active)
            && outcome.1 != {}
  {
    var outcome := Resolve(hands, active, loser, specialRule, draw);
    RecordChallenge(bidRecord, liarRecord, player, valid);
    var other := AnotherActive(active, loser);
    assert other in outcome.1;
  }

  /**
   * A "liar" turn: the verdict over the pooled dice is logged, and the loser
   * (the previous player after a valid challenge, else the challenger) pays
   * under the rule in force.
   */
  method ChallengeTurn(
    n: int, numDice: int, specialRule: bool,
    hands: Hands, active: set<int>, current: Option<Bid>, player: int, previousPlayer: int,
    bidRecord: seq<Turn>, liarRecord: seq<ChallengeOutcome>, draw: nat)
    returns (hands': Hands, active': set<int>, bidRecord': seq<Turn>, liarRecord': seq<ChallengeOutcome>)
    requires Seated(active, n) && active == hands.Keys && WellFormed(hands) && |active| >= 2
    requires player in active && previousPlayer in active && current.Some?
    requires Bookkeeping(n, numDice, specialRule, hands, active, current, bidRecord, liarRecord)
    ensures Seated(active', n) && active' == hands'.Keys && WellFormed(hands') && |active'| >= 1
    ensures Bookkeeping(n, numDice, specialRule, hands', active', None, bidRecord', liarRecord')
    ensures bidRecord' == bidRecord + [Turn(player, Liar)]
    ensures var valid := ChallengeIsValid(current.value, AllDice(hands, n));
            && liarRecord' == liarRecord + [ChallengeOutcome(|bidRecord'|, player, current.value, valid)]
            && (hands', active') == Resolve(hands, active, if valid then previousPlayer else player, specialRule, draw)
    ensures SizeSum(hands', active') < SizeSum(hands, active)
    ensures Descends(hands', hands, specialRule)
  {
    var b := current.value;
    var allDice := UpdateAllDice(hands, n);
    var verdict := ValidChallenge(Int(b.quantity), Int(b.face), allDice);
    var valid := verdict.value;
    var loser := if valid then previousPlayer else player;
    var outcome := Resolve(hands, active, loser, specialRule, draw);
    hands', active' := outcome.0, outcome.1;
    bidRecord' := bidRecord + [Turn(player, Liar)];
    liarRecord' := liarRecord + [ChallengeOutcome(|bidRecord| + 1, player, b, valid)];
    AfterChallenge(n, numDice, specialRule, hands, active, current, bidRecord, liarRecord,
                   player, valid, loser, draw);
    assert |active'| >= 1;
  }

  /**
   * The invariant of the game loop: the seating, the turn, how far the hands
   * have come from the deal, and the bookkeeping of the records.
   */
  ghost predicate Running(
    n: int, numDice: int, specialRule: bool, firstPlayer: int, dealt: Hands,
    hands: Hands, active: set<int>, current: Option<Bid>, player: int,
    bidRecord: seq<Turn>, liarRecord: seq<ChallengeOutcome>)
  {
    && Seated(active, n) && active == hands.Keys && WellFormed(hands) && |active| >= 1
    && player in active
    && Descends(hands, dealt, specialRule)
    && (bidRecord == [] ==> player == firstPlayer)
    && (bidRecord != [] ==> bidRecord[0].player == firstPlayer)
    && Bookkeeping(n, numDice, specialRule, hands, active, current, bidRecord, liarRecord)
  }

  /**
   * One pass of the game loop with two or more players left: the player's
   * strategy acts; a bid becomes the bid in force, a "liar" is resolved by
   * `ChallengeTurn`; then the turn passes to the next active player.
   */
  method PlayTurn(
    n: int, numDice: int, strategies: seq<Strategy>, specialRule: bool, firstPlayer: int, ghost dealt: Hands,
    hands: Hands, active: set<int>, current: Option<Bid>, player: int,
    bidRecord: seq<Turn>, liarRecord: seq<ChallengeOutcome>, d: Draws)
    returns (action: Action, hands': Hands, active': set<int>, current': Option<Bid>, player': int,
             bidRecord': seq<Turn>, liarRecord': seq<ChallengeOutcome>)
    requires n >= 2 && |strategies| >= n && |active| >= 2
    requires Running(n, numDice, specialRule, firstPlayer, dealt, hands, active, current, player, bidRecord, liarRecord)
    ensures Running(n, numDice, specialRule, firstPlayer, dealt, hands', active', current', player', bidRecord', liarRecord')
    ensures bidRecord' == bidRecord + [Turn(player, action)]
    ensures NearestForward(active', n, player, player', 1)
    ensures current.None? || !LiarDecide(strategies[player], current.value, SizeSum(hands, active), hands[player], d) ==>
              action == if strategies[player].preferBid
                        then Informed(strategies[player], current, SizeSum(hands, active), hands[player], d)
                        else RandomBid(strategies[player], current, SizeSum(hands, active), d)
    ensures current.Some? && LiarDecide(strategies[player], current.value, SizeSum(hands, active), hands[player], d) ==>
              action.Liar?
    ensures action.Liar? ==> current' == None && SizeSum(hands', active') < SizeSum(hands, active)
    ensures action.Liar? ==>
              current.Some? &&
              exists prev :: NearestBackward(active, n, player, prev) && prev != player &&
                (hands', active') ==
                  Resolve(hands, active, if ChallengeIsValid(current.value, AllDice(hands, n)) then prev else player,
                          specialRule, d.die)
    ensures action.Propose? ==>
              current' == Some(action.bid) && hands' == hands && active' == active && liarRecord' == liarRecord &&
              BidRoom(current', SizeSum(hands, active)) < BidRoom(current, SizeSum(hands, active))
  {
    var totalDice := TotalDice(hands, active);
    SizeSumAtLeastCount(hands, active);
    action := MakeAction(strategies[player], current, totalDice, hands[player], d);
    var previousPlayer := PreviousPlayer(active, n, player);
    if action.Liar? {
      hands', active', player', bidRecord', liarRecord' :=
        LiarStep(n, numDice, specialRule, firstPlayer, dealt, hands, active, current, player, previousPlayer,
                 bidRecord, liarRecord, d.die);
      current' := None;
    } else {
      player', bidRecord' :=
        BidStep(n, numDice, specialRule, firstPlayer, dealt, hands, active, current, player, bidRecord, liarRecord, action.bid);
      hands', active', liarRecord' := hands, active, liarRecord;
      current' := Some(action.bid);
    }
  }

  /** The "liar" branch of a pass of the loop: the challenge, then the turn moves on. */
  method LiarStep(
    n: int, numDice: int, specialRule: bool, firstPlayer: int, ghost dealt: Hands,
    hands: Hands, active: set<int>, current: Option<Bid>, player: int, previousPlayer: int,
    bidRecord: seq<Turn>, liarRecord: seq<ChallengeOutcome>, draw: nat)
    returns (hands': Hands, active': set<int>, player': int, bidRecord': seq<Turn>, liarRecord': seq<ChallengeOutcome>)
    requires |active| >= 2 && previousPlayer in active && current.Some?
    requires Running(n, numDice, specialRule, firstPlayer, dealt, hands, active, current, player, bidRecord, liarRecord)
    ensures Running(n, numDice, specialRule, firstPlayer, dealt, hands', active', None, player', bidRecord', liarRecord')
    ensures bidRecord' == bidRecord + [Turn(player, Liar)]
    ensures NearestForward(active', n, player, player', 1)
    ensures SizeSum(hands', active') < SizeSum(hands, active)
    ensures (hands', active') ==
              Resolve(hands, active, if ChallengeIsValid(current.value, AllDice(hands, n)) then previousPlayer else player,
                      specialRule, draw)
  {
    hands', active', bidRecord', liarRecord' :=
      ChallengeTurn(n, numDice, specialRule, hands, active, current, player, previousPlayer,
                    bidRecord, liarRecord, draw);
    DescendsTrans(hands', hands, dealt, specialRule);
    player' := NextPlayer(active', n, player);
  }

  /** A bid as a pass of the loop: it becomes the bid in force, and the turn moves on. */
  method BidStep(
    n: int, numDice: int, specialRule: bool, firstPlayer: int, ghost dealt: Hands,
    hands: Hands, active: set<int>, current: Option<Bid>, player: int,
    bidRecord: seq<Turn>, liarRecord: seq<ChallengeOutcome>, bid: Bid)
    returns (player': int, bidRecord': seq<Turn>)
    requires |active| >= 2
    requires Running(n, numDice, specialRule, firstPlayer, dealt, hands, active, current, player, bidRecord, liarRecord)
    requires InBounds(bid, SizeSum(hands, active))
    requires current.Some? ==> Outbids(bid, current.value)
    ensures Running(n, numDice, specialRule, firstPlayer, dealt, hands, active, Some(bid), player', bidRecord', liarRecord)
    ensures bidRecord' == bidRecord + [Turn(player, Propose(bid))]
    ensures NearestForward(active, n, player, player', 1)
    ensures BidRoom(Some(bid), SizeSum(hands, active)) < BidRoom(current, SizeSum(hands, active))
  {
    AfterBid(n, numDice, specialRule, hands, active, current, bidRecord, liarRecord, player, bid);
    bidRecord' := bidRecord + [Turn(player, Propose(bid))];
    player' := NextPlayer(active, n, player);
  }

  /**
   * The game loop of `simulate_game`: from the deal, players take turns from
   * `firstPlayer` on until one player is left.  That player is the winner, and
   * what is left of the deal is their hand alone.
   */
  method PlayGame(
    n: int, numDice: int, strategies: seq<Strategy>, specialRule: bool, oracle: Oracle,
    dealt: Hands, firstPlayer: int)
    returns (winner: int, finalHands: Hands, bidRecord: seq<Turn>, liarRecord: seq<ChallengeOutcome>, bidTimes: int)
    requires n >= 2 && numDice >= 1 && |strategies| >= n && 0 <= firstPlayer < n
    requires forall i :: i in dealt <==> 0 <= i < n
    requires WellFormed(dealt)
    requires Bookkeeping(n, numDice, specialRule, dealt, dealt.Keys, None, [], [])
    ensures 0 <= winner < n
    ensures finalHands.Keys == {winner} && |finalHands[winner]| >= 1
    ensures Descends(finalHands, dealt, specialRule)
    ensures bidTimes == |bidRecord|
    ensures |bidRecord| >= 1 && bidRecord[0].player == firstPlayer
    ensures bidRecord[|bidRecord| - 1].action.Liar?
    ensures Escalates(bidRecord) && ChallengesAnswerBids(bidRecord)
    ensures LogsChallenges(bidRecord, liarRecord)
    ensures !specialRule ==> |liarRecord| == n - 1
    ensures specialRule ==> n * numDice - numDice <= |liarRecord| < n * numDice
  {
    var hands := dealt;
    var active := hands.Keys;
    var current: Option<Bid> := None;
    var player := firstPlayer;
    bidRecord, liarRecord := [], [];
    bidTimes := 0;

    while |active| > 1
      invariant Running(n, numDice, specialRule, firstPlayer, dealt, hands, active, current, player, bidRecord, liarRecord)
      invariant bidTimes == |bidRecord|
      decreases SizeSum(hands, active), BidRoom(current, SizeSum(hands, active))
    {
      var d := oracle.turn(bidTimes);
      var action;
      action, hands, active, current, player, bidRecord, liarRecord :=
        PlayTurn(n, numDice, strategies, specialRule, firstPlayer, dealt,
                 hands, active, current, player, bidRecord, liarRecord, d);
      bidTimes := bidTimes + 1;
    }

    NonEmpty(active);
    winner :| winner in active;
    LastPlayer(hands, active, winner);
    finalHands := hands;
  }

  /**
   * `simulate_game(num_players, num_dice, strategies, special_rule, first_caller)`.
   * Player p plays `strategies[p]`; the oracle supplies every random draw.
   */
  method SimulateGame(
    numPlayers: int, numDice: int, strategies: seq<Strategy>, oracle: Oracle,
    specialRule: bool := false, firstCaller: int := -1)
    returns (r: Result<GameRecord>)
    requires |strategies| >= numPlayers
    ensures r.Failure? <==>
              numPlayers < 2 || numDice <= 0 || (firstCaller != -1 && !(0 <= firstCaller < numPlayers))
    ensures r.Failure? ==>
              r.error == if numPlayers < 2 || numDice <= 0 then BadConfiguration else UnknownStarter
    ensures r.Ok? ==> 0 <= r.value.winner < numPlayers && 0 <= r.value.firstPlayer < numPlayers
    ensures r.Ok? && firstCaller != -1 ==> r.value.firstPlayer == firstCaller
    ensures r.Ok? ==> r.value.bidTimes == |r.value.bidRecord| >= 1
    ensures r.Ok? ==> r.value.bidRecord[0].player == r.value.firstPlayer
    ensures r.Ok? ==> r.value.bidRecord[|r.value.bidRecord| - 1].action.Liar?
    ensures r.Ok? ==> Escalates(r.value.bidRecord) && ChallengesAnswerBids(r.value.bidRecord)
    ensures r.Ok? ==> LogsChallenges(r.value.bidRecord, r.value.liarRecord)
    ensures r.Ok? ==> Tally(r.value.originalDice, DealtPool(numDice, oracle.roll, numPlayers))
    ensures r.Ok? && !specialRule ==> |r.value.liarRecord| == numPlayers - 1
    ensures r.Ok? && specialRule ==>
              numPlayers * numDice - numDice <= |r.value.liarRecord| < numPlayers * numDice
  {
    if numPlayers < 2 || numDice <= 0 {
      return Failure(BadConfiguration);
    }
    var n := numPlayers;
    var hands, originalDice := DealHands(n, numDice, oracle.roll);
    Opening(n, numDice, specialRule, oracle.roll, hands);
    var player: int;
    if firstCaller == -1 {
      var seats := seq(n, i => i);
      player := Choice(seats, oracle.starter);
      assert forall k :: 0 <= k < n ==> seats[k] == k;
    } else {
      player := firstCaller;
    }
    if !(0 <= player < n) {
      return Failure(UnknownStarter);
    }
    var winner, _, bidRecord, liarRecord, bidTimes := PlayGame(n, numDice, strategies, specialRule, oracle, hands, player);
    return Ok(GameRecord(winner, player, bidRecord, liarRecord, bidTimes, originalDice));
  }
}
