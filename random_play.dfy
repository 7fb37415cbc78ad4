/**
 * The older random-only engine of function.py: every player escalates at
 * random with `random_bid_choice`, a challenge eliminates its loser, and after
 * a valid challenge the challenger opens the next round.
 */
module RandomPlay {
  import opened Chance
  import opened GameRules
  import opened BidOrder
  import opened GameStrategies
  import opened Table
  import opened GamePlayRule

  /** One entry of the list `random_bid_choice` draws from: an escalation category, or "liar". */
  datatype Move = Raise(category: Category) | Challenge

  /**
   * The `available_strategies` list after its removals: the legal categories,
   * followed by "liar" unless the bid already claims every die.
   */
  function Moves(b: Bid, total: int): (ms: seq<Move>)
    requires InBounds(b, total)
    ensures Challenge in ms <==> b.quantity < total
    ensures forall c :: Raise(c) in ms <==> Legal(c, b, total)
  {
    var cs := AvailableCategories(b, total);
    AvailableCategoriesLegal(b, total);
    var raises := seq(|cs|, i requires 0 <= i < |cs| => Raise(cs[i]));
    assert forall c :: Raise(c) in raises <==> c in cs by {
      forall c
        ensures Raise(c) in raises <==> c in cs
      {
        if c in cs {
          var i :| 0 <= i < |cs| && cs[i] == c;
          assert raises[i] == Raise(c);
        }
      }
    }
    if b.quantity == total then raises else raises + [Challenge]
  }

  /**
   * `random_bid_choice`: an opening of 2..total dice on any face; "liar" on the
   * highest bid; otherwise a move drawn from `Moves`.  The coin the source
   * flips first has no effect and is not read.
   */
  function RandomBidChoice(current: Option<Bid>, total: int, d: Draws): (a: Action)
    requires current.None? ==> total >= 2
    requires current.Some? ==> InBounds(current.value, total)
    ensures current.None? ==> a.Propose? && InBounds(a.bid, total) && a.bid.quantity >= 2
    ensures current.Some? && current.value.quantity == total ==> (a.Liar? <==> current.value.face == 6)
    ensures current.Some? && current.value.quantity == total && a.Propose? ==>
              a.bid.quantity == total && a.bid.face > current.value.face
    ensures current.Some? && a.Propose? ==> Outbids(a.bid, current.value) && InBounds(a.bid, total)
  {
    match current
    case None => Propose(Bid(RandInt(2, total, d.quantity), RandInt(1, 6, d.face)))
    case Some(b) =>
      if b == Bid(total, 6) then Liar
      else
        var ms := Moves(b, total);
        if ms == [] then Liar
        else
          match Choice(ms, d.category)
          case Challenge => Liar
          case Raise(SameQuantity) => Propose(Bid(b.quantity, RandInt(b.face + 1, 6, d.face)))
          case Raise(SameFaceValue) => Propose(Bid(RandInt(b.quantity + 1, total, d.quantity), b.face))
          case Raise(BothIncrease) =>
            Propose(Bid(RandInt(b.quantity + 1, total, d.quantity), RandInt(b.face + 1, 6, d.face)))
          case Raise(HigherQuantitySmallerFace) =>
            Propose(Bid(RandInt(b.quantity + 1, total, d.quantity),
                        if b.face > 1 then RandInt(1, b.face - 1, d.face) else 1))
  }

  /** Every in-bounds bid that outbids the current one can be drawn. */
  lemma RandomBidChoiceOnto(b: Bid, total: int, c: Bid)
    requires InBounds(b, total) && InBounds(c, total) && Outbids(c, b)
    ensures exists d: Draws :: RandomBidChoice(Some(b), total, d) == Propose(c)
  {
    var ms := Moves(b, total);
    var cat := if c.quantity == b.quantity then SameQuantity
               else if c.face == b.face then SameFaceValue
               else if c.face > b.face then BothIncrease
               else HigherQuantitySmallerFace;
    assert Legal(cat, b, total);
    var i :| 0 <= i < |ms| && ms[i] == Raise(cat);
    ChoiceAt(ms, i);
    var qd: nat := if c.quantity > b.quantity then c.quantity - (b.quantity + 1) else 0;
    var fd: nat := if c.face > b.face then c.face - (b.face + 1) else if c.face < b.face then c.face - 1 else 0;
    var d := Draws(0, i, qd, fd, 0);
    assert Choice(ms, d.category) == Raise(cat);
    if c.quantity > b.quantity {
      RandIntExact(b.quantity + 1, total, c.quantity);
    }
    if c.face > b.face {
      RandIntExact(b.face + 1, 6, c.face);
    } else if c.face < b.face {
      RandIntExact(1, b.face - 1, c.face);
    }
    assert RandomBidChoice(Some(b), total, d) == Propose(c);
  }

  /** "liar" is a possible answer exactly when the bid leaves some dice unclaimed or is the highest bid. */
  lemma RandomBidChoiceMayChallenge(b: Bid, total: int)
    requires InBounds(b, total)
    ensures (exists d: Draws :: RandomBidChoice(Some(b), total, d).Liar?) <==> b.quantity < total || b.face == 6
  {
    if b.quantity < total && b != Bid(total, 6) {
      var ms := Moves(b, total);
      var i :| 0 <= i < |ms| && ms[i] == Challenge;
      ChoiceAt(ms, i);
      var d := Draws(0, i, 0, 0, 0);
      assert RandomBidChoice(Some(b), total, d).Liar?;
    } else if b.face == 6 {
      assert RandomBidChoice(Some(b), total, Draws(0, 0, 0, 0, 0)).Liar?;
    }
  }

  /** After every valid challenge that is not the last action, its challenger plays next. */
  predicate ChallengerOpens(record: seq<Turn>, liars: seq<ChallengeOutcome>) {
    forall k :: 0 <= k < |liars| && liars[k].valid && 0 <= liars[k].bidTimes < |record| ==>
      record[liars[k].bidTimes].player == liars[k].challenger
  }

  /** A valid challenge made by the last recorded action hands the turn back to its challenger. */
  predicate OpensNext(record: seq<Turn>, liars: seq<ChallengeOutcome>, player: int) {
    forall k :: 0 <= k < |liars| && liars[k].valid && liars[k].bidTimes == |record| ==>
      liars[k].challenger == player
  }

  /** Recording the turn of the player whom the last challenge handed the turn keeps `ChallengerOpens`. */
  lemma PassTurn(record: seq<Turn>, liars: seq<ChallengeOutcome>, t: Turn)
    requires LogsChallenges(record, liars) && ChallengerOpens(record, liars)
    requires OpensNext(record, liars, t.player)
    ensures ChallengerOpens(record + [t], liars)
    ensures forall k :: 0 <= k < |liars| ==> liars[k].bidTimes < |record + [t]|
    ensures forall p :: OpensNext(record + [t], liars, p)
  {
    var record' := record + [t];
    forall k | 0 <= k < |liars| && liars[k].valid && 0 <= liars[k].bidTimes < |record'|
      ensures record'[liars[k].bidTimes].player == liars[k].challenger
    {
      if liars[k].bidTimes < |record| {
        assert record'[liars[k].bidTimes] == record[liars[k].bidTimes];
      }
    }
  }

  /** Logging the challenge just recorded; when it is valid, its challenger plays next. */
  lemma LogChallenge(record: seq<Turn>, liars: seq<ChallengeOutcome>, entry: ChallengeOutcome)
    requires ChallengerOpens(record, liars)
    requires forall k :: 0 <= k < |liars| ==> liars[k].bidTimes < |record|
    requires entry.bidTimes == |record|
    ensures ChallengerOpens(record, liars + [entry])
    ensures entry.valid ==> OpensNext(record, liars + [entry], entry.challenger)
  {
    var liars' := liars + [entry];
    forall k | 0 <= k < |liars'| && liars'[k].valid && 0 <= liars'[k].bidTimes < |record|
      ensures record[liars'[k].bidTimes].player == liars'[k].challenger
    {
      assert k < |liars| && liars'[k] == liars[k];
    }
  }

  /**
   * The turn advance after a bid: `current_player += 1`, a wrap past the last
   * seat, then the scan `while current_player not in active_players`.  The first
   * turn may start from any `starter`, seated or not; a negative id is never
   * active, so the scan's first step brings it into 0..n-1.
   */
  method Advance(active: set<int>, n: int, cur: int) returns (next: int)
    requires n >= 1 && Seated(active, n) && active != {}
    ensures 0 <= next < n && next in active
    ensures 0 <= cur < n ==> NearestForward(active, n, cur, next, 1)
  {
    if 0 <= cur < n {
      next := NextPlayer(active, n, cur);
    } else {
      next := cur + 1;
      if next >= n {
        next := 0;
      }
      if next < 0 {
        next := (next + 1) % n;
      }
      next := ScanForward(active, n, next);
    }
  }

  /** The loop invariant of function.py's game. */
  ghost predicate Playing(
    n: int, numDice: int, firstPlayer: int,
    hands: Hands, active: set<int>, current: Option<Bid>, player: int,
    bidRecord: seq<Turn>, liarRecord: seq<ChallengeOutcome>)
  {
    && Seated(active, n) && active == hands.Keys && WellFormed(hands) && |active| >= 1
    && (bidRecord == [] ==> player == firstPlayer)
    && (bidRecord != [] ==> player in active && bidRecord[0].player == firstPlayer)
    && Bookkeeping(n, numDice, false, hands, active, current, bidRecord, liarRecord)
    && ChallengerOpens(bidRecord, liarRecord) && OpensNext(bidRecord, liarRecord, player)
  }

  /**
   * A "liar" turn of function.py: the verdict over the pooled dice, the loser
   * (the previous player after a valid challenge, else the challenger) leaves,
   * and the turn stays with the challenger after a valid challenge, else moves
   * to the next active player.
   */
  method ChallengeTurn(
    n: int, numDice: int, firstPlayer: int,
    hands: Hands, active: set<int>, current: Option<Bid>, player: int,
    bidRecord: seq<Turn>, liarRecord: seq<ChallengeOutcome>, draw: nat)
    returns (hands': Hands, active': set<int>, player': int,
             bidRecord': seq<Turn>, liarRecord': seq<ChallengeOutcome>)
    requires n >= 1 && |active| >= 2 && current.Some?
    requires Playing(n, numDice, firstPlayer, hands, active, current, player, bidRecord, liarRecord)
    ensures Playing(n, numDice, firstPlayer, hands', active', None, player', bidRecord', liarRecord')
    ensures bidRecord' == bidRecord + [Turn(player, Liar)]
    ensures liarRecord' == liarRecord +
              [ChallengeOutcome(|bidRecord'|, player, current.value, ChallengeIsValid(current.value, AllDice(hands, n)))]
    ensures SizeSum(hands', active') < SizeSum(hands, active)
    ensures Descends(hands', hands, false)
    ensures var valid := ChallengeIsValid(current.value, AllDice(hands, n));
            && (valid ==>
                  player' == player &&
                  exists prev :: NearestBackward(active, n, player, prev) && prev != player &&
                    (hands', active') == Resolve(hands, active, prev, false, draw))
            && (!valid ==>
                  (hands', active') == Resolve(hands, active, player, false, draw) &&
                  NearestForward(active', n, player, player', 0))
  {
    PassTurn(bidRecord, liarRecord, Turn(player, Liar));
    var previousPlayer := PreviousPlayer(active, n, player);
    var b := current.value;
    var allDice := UpdateAllDice(hands, n);
    var verdict := ValidChallenge(Int(b.quantity), Int(b.face), allDice);
    var valid := verdict.value;
    var loser := if valid then previousPlayer else player;
    AfterChallenge(n, numDice, false, hands, active, current, bidRecord, liarRecord,
                   player, valid, loser, draw);
    bidRecord' := bidRecord + [Turn(player, Liar)];
    var entry := ChallengeOutcome(|bidRecord'|, player, b, valid);
    LogChallenge(bidRecord', liarRecord, entry);
    liarRecord' := liarRecord + [entry];
    var outcome := Resolve(hands, active, loser, false, draw);
    hands', active' := outcome.0, outcome.1;
    player' := player;
    if !valid {
      player' := ScanForward(active', n, player);
    }
  }

  /** The game loop of function.py's `simulate_game`, from the deal and the first player on. */
  method PlayGame(n: int, numDice: int, oracle: Oracle, dealt: Hands, firstPlayer: int)
    returns (winner: int, finalHands: Hands, bidRecord: seq<Turn>, liarRecord: seq<ChallengeOutcome>, bidTimes: int)
    requires n >= 2 && numDice >= 1
    requires forall i :: i in dealt <==> 0 <= i < n
    requires WellFormed(dealt)
    requires Bookkeeping(n, numDice, false, dealt, dealt.Keys, None, [], [])
    ensures 0 <= winner < n
    ensures finalHands.Keys == {winner} && finalHands[winner] == dealt[winner]
    ensures bidTimes == |bidRecord|
    ensures |bidRecord| >= 1 && bidRecord[0].player == firstPlayer
    ensures bidRecord[|bidRecord| - 1].action.Liar?
    ensures Escalates(bidRecord) && ChallengesAnswerBids(bidRecord)
    ensures LogsChallenges(bidRecord, liarRecord) && ChallengerOpens(bidRecord, liarRecord)
    ensures |liarRecord| == n - 1
  {
    var hands := dealt;
    var active := hands.Keys;
    var current: Option<Bid> := None;
    var player := firstPlayer;
    bidRecord, liarRecord := [], [];
    bidTimes := 0;

    while |active| > 1
      invariant Playing(n, numDice, firstPlayer, hands, active, current, player, bidRecord, liarRecord)
      invariant Descends(hands, dealt, false)
      invariant bidTimes == |bidRecord|
      decreases SizeSum(hands, active), BidRoom(current, SizeSum(hands, active))
    {
      var totalDice := TotalDice(hands, active);
      SizeSumAtLeastCount(hands, active);
      var d := oracle.turn(bidTimes);
      var action := RandomBidChoice(current, totalDice, d);
      if action.Liar? {
        var hands' := hands;
        hands', active, player, bidRecord, liarRecord :=
          ChallengeTurn(n, numDice, firstPlayer, hands, active, current, player, bidRecord, liarRecord, d.die);
        DescendsTrans(hands', hands, dealt, false);
        hands := hands';
        current := None;
      } else {
        PassTurn(bidRecord, liarRecord, Turn(player, action));
        AfterBid(n, numDice, false, hands, active, current, bidRecord, liarRecord, player, action.bid);
        bidRecord := bidRecord + [Turn(player, action)];
        current := Some(action.bid);
        player := Advance(active, n, player);
      }
      bidTimes := bidTimes + 1;
    }

    NonEmpty(active);
    winner :| winner in active;
    LastPlayer(hands, active, winner);
    finalHands := hands;
  }

  /**
   * function.py's `simulate_game(num_players, num_dice, starter)`: the deal, a
   * random first player unless `starter` names one, and eliminations until one
   * player is left.
   */
  method SimulateGame(numPlayers: int, numDice: int, oracle: Oracle, starter: int := -1)
    returns (r: Result<GameRecord>)
    ensures r.Failure? <==> numPlayers < 2 || numDice <= 0
    ensures r.Failure? ==> r.error == BadConfiguration
    ensures r.Ok? ==> 0 <= r.value.winner < numPlayers
    ensures r.Ok? && starter != -1 ==> r.value.firstPlayer == starter
    ensures r.Ok? && starter == -1 ==> 0 <= r.value.firstPlayer < numPlayers
    ensures r.Ok? ==> r.value.bidTimes == |r.value.bidRecord| >= 1
    ensures r.Ok? ==> r.value.bidRecord[0].player == r.value.firstPlayer
    ensures r.Ok? ==> r.value.bidRecord[|r.value.bidRecord| - 1].action.Liar?
    ensures r.Ok? ==> Escalates(r.value.bidRecord) && ChallengesAnswerBids(r.value.bidRecord)
    ensures r.Ok? ==> LogsChallenges(r.value.bidRecord, r.value.liarRecord)
    ensures r.Ok? ==> ChallengerOpens(r.value.bidRecord, r.value.liarRecord)
    ensures r.Ok? ==> Tally(r.value.originalDice, DealtPool(numDice, oracle.roll, numPlayers))
    ensures r.Ok? ==> |r.value.liarRecord| == numPlayers - 1
  {
    if numPlayers < 2 || numDice <= 0 {
      return Failure(BadConfiguration);
    }
    var n := numPlayers;
    var hands, originalDice := DealHands(n, numDice, oracle.roll);
    Opening(n, numDice, false, oracle.roll, hands);
    var player: int;
    if starter == -1 {
      var seats := seq(n, i => i);
      player := Choice(seats, oracle.starter);
      assert forall k :: 0 <= k < n ==> seats[k] == k;
    } else {
      player := starter;
    }
    var winner, _, bidRecord, liarRecord, bidTimes := PlayGame(n, numDice, oracle, hands, player);
    return Ok(GameRecord(winner, player, bidRecord, liarRecord, bidTimes, originalDice));
  }
}
