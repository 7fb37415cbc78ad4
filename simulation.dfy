/**
 * The older strategy-driven engine of simulation.py: player p plays the
 * strategy subclass `strategies[p]` of strategies.py, a challenge eliminates
 * its loser, and after a valid challenge the challenger opens the next round.
 * It returns only the winner.
 */
module Simulation {
  import opened Chance
  import opened GameRules
  import opened BidOrder
  import opened Table
  import opened Strategies

  /**
   * The game loop of simulation.py's `simulate_game`; the winner is the one
   * player left, holding the hand they were dealt.  A random strategy that
   * calls "liar" with no bid in force makes `valid_challenge` unpack None: the
   * game ends in that error.
   */
  method PlayGame(n: int, kinds: seq<Kind>, oracle: Oracle, dealt: Hands, firstPlayer: int)
    returns (r: Result<int>, finalHands: Hands)
    requires n >= 2 && |kinds| >= n && 0 <= firstPlayer < n
    requires forall i :: i in dealt <==> 0 <= i < n
    requires WellFormed(dealt)
    ensures r.Ok? ==> 0 <= r.value < n
    ensures r.Ok? ==> finalHands.Keys == {r.value} && finalHands[r.value] == dealt[r.value]
    ensures r.Failure? ==> r.error == ChallengeWithoutBid
    ensures r.Failure? ==> exists p :: 0 <= p < n && kinds[p] == RandomStrategy
  {
    var hands := dealt;
    var active := hands.Keys;
    var current: Option<Bid> := None;
    var player := firstPlayer;
    var turns := 0;
    assert player in active;

    while |active| > 1
      invariant Seated(active, n) && active == hands.Keys && WellFormed(hands) && |active| >= 1
      invariant player in active
      invariant Descends(hands, dealt, false)
      invariant current.Some? ==> InBounds(current.value, SizeSum(hands, active))
      decreases SizeSum(hands, active), BidRoom(current, SizeSum(hands, active))
    {
      var totalDice := TotalDice(hands, active);
      SizeSumAtLeastCount(hands, active);
      var d := oracle.turn(turns);
      var action := MakeBid(kinds[player], current, totalDice, hands[player], d);
      if action.Liar? {
        if current.None? {
          return Failure(ChallengeWithoutBid), hands;
        }
        var hands', active', player', verdict, loser := ChallengeTurn(n, hands, active, current.value, player);
        DescendsTrans(hands', hands, dealt, false);
        hands, active, player := hands', active', player';
        current := None;
      } else {
        if current.None? {
          OpeningShrinksRoom(action.bid, totalDice);
        } else {
          OutbidsShrinksRoom(current.value, action.bid, totalDice);
        }
        current := Some(action.bid);
        player := NextPlayer(active, n, player);
      }
      turns := turns + 1;
    }

    NonEmpty(active);
    var winner :| winner in active;
    assert |active - {winner}| == 0;
    return Ok(winner), hands;
  }

  /**
   * A "liar" turn of simulation.py: the verdict over the pooled dice, the
   * loser (the previous player after a valid challenge, else the challenger)
   * leaves, and the challenger opens the next round after a valid challenge,
   * else the next active player from the challenger's seat on.
   */
  method ChallengeTurn(n: int, hands: Hands, active: set<int>, b: Bid, player: int)
    returns (hands': Hands, active': set<int>, player': int, valid: bool, loser: int)
    requires Seated(active, n) && active == hands.Keys && WellFormed(hands) && |active| >= 2
    requires player in active
    ensures valid == ChallengeIsValid(b, AllDice(hands, n))
    ensures valid ==> NearestBackward(active, n, player, loser) && loser != player
    ensures !valid ==> loser == player
    ensures (hands', active') == Resolve(hands, active, loser, false, 0)
    ensures Seated(active', n) && |active'| >= 1 && player' in active'
    ensures valid ==> player' == player
    ensures !valid ==> NearestForward(active', n, player, player', 0)
    ensures SizeSum(hands', active') < SizeSum(hands, active)
    ensures Descends(hands', hands, false)
  {
    var previousPlayer := PreviousPlayer(active, n, player);
    var allDice := UpdateAllDice(hands, n);
    var verdict := ValidChallenge(Int(b.quantity), Int(b.face), allDice);
    valid := verdict.value;
    loser := if valid then previousPlayer else player;
    var other := AnotherActive(active, loser);
    var outcome := Resolve(hands, active, loser, false, 0);
    assert other in outcome.1;
    hands', active' := outcome.0, outcome.1;
    player' := player;
    if !valid {
      player' := ScanForward(active', n, player);
    }
  }

  /**
   * simulation.py's `simulate_game(num_players, num_dice, strategies)`: the deal,
   * a random first player, and eliminations until one player is left, whose id
   * is returned.
   */
  method SimulateGame(numPlayers: int, numDice: int, kinds: seq<Kind>, oracle: Oracle)
    returns (r: Result<int>)
    requires |kinds| >= numPlayers
    ensures r.Failure? && r.error == BadConfiguration <==> numPlayers < 2 || numDice <= 0
    ensures r.Failure? ==> r.error == BadConfiguration || r.error == ChallengeWithoutBid
    ensures r.Failure? && r.error == ChallengeWithoutBid ==>
              exists p :: 0 <= p < numPlayers && kinds[p] == RandomStrategy
    ensures numPlayers >= 2 && numDice >= 1 && (forall p :: 0 <= p < numPlayers ==> kinds[p] != RandomStrategy) ==>
              r.Ok?
    ensures r.Ok? ==> 0 <= r.value < numPlayers
  {
    if numPlayers < 2 || numDice <= 0 {
      return Failure(BadConfiguration);
    }
    var n := numPlayers;
    var hands, _ := DealHands(n, numDice, oracle.roll);
    forall p | p in hands
      ensures |hands[p]| >= 1 && IsHand(hands[p])
    {
      assert hands[p] == Dealt(numDice, oracle.roll, p);
    }
    var seats := seq(n, i => i);
    var player := Choice(seats, oracle.starter);
    assert forall k :: 0 <= k < n ==> seats[k] == k;
    var remaining;
    r, remaining := PlayGame(n, kinds, oracle, hands, player);
  }
}
