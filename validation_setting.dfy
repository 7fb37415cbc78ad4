/**
 * The bookkeeping of validation_setting.py across many simulated games: the
 * bid-sequence test `valid_bid`, the scan of a game's bid record for rounds
 * whose bids do not increase, and the win, first-player and dice-distribution
 * counters that `update` keeps.
 */
module ValidationSetting {
  import opened GameRules
  import opened BidOrder
  import opened Table
  import opened GamePlayRule

  /** Every bid after the first raises the quantity or the face of the bid before it. */
  predicate Increasing(bids: seq<Bid>) {
    forall i :: 1 <= i < |bids| ==> Increases(bids[i - 1], bids[i])
  }

  /** Two sequences of bids join into an increasing one exactly when both are and the seam increases. */
  lemma IncreasingConcat(a: seq<Bid>, b: seq<Bid>)
    ensures Increasing(a + b) <==>
              Increasing(a) && Increasing(b) && (a != [] && b != [] ==> Increases(a[|a| - 1], b[0]))
  {
    var ab := a + b;
    if Increasing(ab) {
      forall i | 1 <= i < |b|
        ensures Increases(b[i - 1], b[i])
      {
        assert ab[|a| + i - 1] == b[i - 1] && ab[|a| + i] == b[i];
      }
      forall i | 1 <= i < |a|
        ensures Increases(a[i - 1], a[i])
      {
        assert ab[i - 1] == a[i - 1] && ab[i] == a[i];
      }
      if a != [] && b != [] {
        assert ab[|a| - 1] == a[|a| - 1] && ab[|a|] == b[0];
      }
    }
    if Increasing(a) && Increasing(b) && (a != [] && b != [] ==> Increases(a[|a| - 1], b[0])) {
      forall i | 1 <= i < |ab|
        ensures Increases(ab[i - 1], ab[i])
      {
        if i < |a| {
          assert ab[i - 1] == a[i - 1] && ab[i] == a[i];
        } else if i == |a| {
          assert ab[i - 1] == a[|a| - 1] && ab[i] == b[0];
        } else {
          assert ab[i - 1] == b[i - |a| - 1] && ab[i] == b[i - |a|];
        }
      }
    }
  }

  /** Every prefix of an increasing sequence of bids is increasing. */
  lemma IncreasingPrefix(bids: seq<Bid>, k: nat)
    requires k <= |bids| && Increasing(bids)
    ensures Increasing(bids[..k])
  {
    IncreasingConcat(bids[..k], bids[k..]);
    assert bids[..k] + bids[k..] == bids;
  }

  /** The examples of `valid_bid`'s documentation. */
  lemma IncreasingExamples()
    ensures Increasing([Bid(1, 3), Bid(2, 3), Bid(3, 3)])
    ensures Increasing([Bid(1, 3), Bid(1, 4), Bid(1, 5)])
    ensures Increasing([Bid(1, 3), Bid(2, 4), Bid(3, 5)])
    ensures !Increasing([Bid(1, 3), Bid(1, 3), Bid(2, 3)])
    ensures !Increasing([Bid(1, 3), Bid(1, 2), Bid(2, 3)])
  {
    var same := [Bid(1, 3), Bid(1, 3), Bid(2, 3)];
    assert !Increases(same[0], same[1]);
    var lower := [Bid(1, 3), Bid(1, 2), Bid(2, 3)];
    assert !Increases(lower[0], lower[1]);
  }

  /** The bids of the round still open at the end of a record: those since the last "liar". */
  function OpenRound(record: seq<Turn>): (bids: seq<Bid>)
    ensures |bids| <= |record|
  {
    if record == [] then []
    else match record[|record| - 1].action
      case Liar => []
      case Propose(b) => OpenRound(record[..|record| - 1]) + [b]
  }

  /** The open round ends with the last action of the record, when that is a bid. */
  lemma OpenRoundLast(record: seq<Turn>)
    requires OpenRound(record) != []
    ensures record != [] && record[|record| - 1].action == Propose(OpenRound(record)[|OpenRound(record)| - 1])
  {
  }

  /**
   * Whether the check of a bid record warns: some "liar" closes a round whose
   * bids do not increase.  Rounds are separated by the "liar" calls.
   */
  predicate Warns(record: seq<Turn>) {
    if record == [] then false
    else
      var prefix := record[..|record| - 1];
      Warns(prefix) || (record[|record| - 1].action.Liar? && !Increasing(OpenRound(prefix)))
  }

  /** A record of the engine, whose bids escalate within each round, never draws the warning. */
  lemma {:induction false} EscalatingRecordsPass(record: seq<Turn>)
    requires Escalates(record)
    ensures Increasing(OpenRound(record))
    ensures !Warns(record)
  {
    if record != [] {
      var prefix := record[..|record| - 1];
      assert Escalates(prefix) by {
        forall i | 0 < i < |prefix| && prefix[i - 1].action.Propose? && prefix[i].action.Propose?
          ensures Outbids(prefix[i].action.bid, prefix[i - 1].action.bid)
        {
          assert prefix[i - 1] == record[i - 1] && prefix[i] == record[i];
        }
      }
      EscalatingRecordsPass(prefix);
      var last := record[|record| - 1];
      if last.action.Propose? {
        var round := OpenRound(prefix);
        if round != [] {
          OpenRoundLast(prefix);
          assert record[|record| - 2] == prefix[|prefix| - 1];
          OutbidsIncreases(round[|round| - 1], last.action.bid);
        }
        IncreasingConcat(round, [last.action.bid]);
      }
    }
  }

  /** A non-escalating round closed by a challenge: the check it is meant for warns on it. */
  lemma MissedWarning()
    ensures Warns([Turn(0, Propose(Bid(3, 3))), Turn(1, Propose(Bid(2, 2))), Turn(0, Liar)])
  {
    var record := [Turn(0, Propose(Bid(3, 3))), Turn(1, Propose(Bid(2, 2))), Turn(0, Liar)];
    var prefix := record[..2];
    assert prefix[..1] == [Turn(0, Propose(Bid(3, 3)))];
    assert prefix[..1][..0] == [];
    assert OpenRound(prefix) == [Bid(3, 3), Bid(2, 2)];
    assert !Increases(OpenRound(prefix)[0], OpenRound(prefix)[1]);
    assert record[..|record| - 1] == prefix;
  }

  /** The statistics gathered over many games. */
  class ValidationVariables {
    var numPlayers: int
    var numDice: int
    var times: int
    /** Wins per player id. */
    var results: map<int, int>
    /** Games started per player id. */
    var firstPlayers: map<int, int>
    /** Dealt dice per face 1..6 over all games. */
    var original: map<int, int>
    /** For every possible number of dealt 1s, the games in which that many 1s were dealt. */
    var maxQuantity: map<int, int>

    /** Zeroed counters: one per player, one per face, one per possible count of 1s. */
    constructor(numPlayers: int, numDice: int, times: int)
      ensures this.numPlayers == numPlayers && this.numDice == numDice && this.times == times
      ensures forall i :: i in results <==> 0 <= i < numPlayers
      ensures forall i :: i in firstPlayers <==> 0 <= i < numPlayers
      ensures forall i :: i in results ==> results[i] == 0 && firstPlayers[i] == 0
      ensures original == map[1 := 0, 2 := 0, 3 := 0, 4 := 0, 5 := 0, 6 := 0]
      ensures forall q :: q in maxQuantity <==> 0 <= q <= numPlayers * numDice
      ensures forall q :: q in maxQuantity ==> maxQuantity[q] == 0
    {
      var table: map<int, int> := map[];
      var i := 0;
      while i < numPlayers
        invariant forall p :: p in table <==> 0 <= p < i
        invariant forall p :: p in table ==> table[p] == 0
        invariant i <= numPlayers || i == 0
      {
        table := table[i := 0];
        i := i + 1;
      }
      var counts: map<int, int> := map[];
      var q := 0;
      while q <= numPlayers * numDice
        invariant forall k :: k in counts <==> 0 <= k < q
        invariant forall k :: k in counts ==> counts[k] == 0
        invariant q <= numPlayers * numDice + 1 || q == 0
      {
        counts := counts[q := 0];
        q := q + 1;
      }
      this.numPlayers := numPlayers;
      this.numDice := numDice;
      this.times := times;
      results := table;
      firstPlayers := table;
      original := map[1 := 0, 2 := 0, 3 := 0, 4 := 0, 5 := 0, 6 := 0];
      maxQuantity := counts;
    }

    /**
     * `valid_bid`: true exactly when every bid raises the quantity or the face
     * of the bid before it; the scan stops at the first pair that does not.
     */
    method ValidBid(bids: seq<Bid>) returns (isIncreasing: bool)
      ensures isIncreasing <==> Increasing(bids)
      ensures |bids| <= 1 ==> isIncreasing
    {
      isIncreasing := true;
      var i := 1;
      while i < |bids|
        invariant 1 <= i
        invariant forall k :: 1 <= k < i && k < |bids| ==> Increases(bids[k - 1], bids[k])
      {
        if !Increases(bids[i - 1], bids[i]) {
          isIncreasing := false;
          break;
        }
        i := i + 1;
      }
    }

    /**
     * The bid check of `update` as written: `bids` is emptied for every entry of
     * the record, and every entry holds one action, so each "liar" is checked
     * against no bids at all and the warning is never printed.
     */
    method CheckBidsAsWritten(bidRecord: seq<Turn>) returns (warned: bool)
      ensures !warned
    {
      warned := false;
      for i := 0 to |bidRecord|
        invariant !warned
      {
        var bids: seq<Bid> := [];
        var entry := bidRecord[i];
        if entry.action.Liar? {
          var ok := ValidBid(bids);
          if !ok {
            warned := true;
          }
        } else {
          bids := bids + [entry.action.bid];
        }
      }
    }

    /**
     * The bid check as intended: the bids of a round are gathered across the
     * record's entries, and each "liar" checks them and starts a new round.
     */
    method CheckBids(bidRecord: seq<Turn>) returns (warned: bool)
      ensures warned == Warns(bidRecord)
    {
      warned := false;
      var bids: seq<Bid> := [];
      for i := 0 to |bidRecord|
        invariant bids == OpenRound(bidRecord[..i])
        invariant warned == Warns(bidRecord[..i])
      {
        assert bidRecord[..i + 1][..i] == bidRecord[..i];
        var entry := bidRecord[i];
        if entry.action.Liar? {
          var ok := ValidBid(bids);
          if !ok {
            warned := true;
          }
          bids := [];
        } else {
          bids := bids + [entry.action.bid];
        }
      }
      assert bidRecord[..|bidRecord|] == bidRecord;
    }

    /**
     * The counting loop of `update`: every face count of the game's deal (all
     * hands) is added to `original`, and when the distribution has key 1, the
     * game is counted under its number of 1s (0 included) in `max_quantity`.
     */
    static method AddOriginal(original: map<int, int>, maxQuantity: map<int, int>, originalDices: map<int, int>)
      returns (counts: map<int, int>, maxima: map<int, int>)
      requires originalDices.Keys <= original.Keys
      requires 1 in originalDices ==> originalDices[1] in maxQuantity
      ensures counts.Keys == original.Keys
      ensures forall k :: k in counts ==>
                counts[k] == original[k] + (if k in originalDices then originalDices[k] else 0)
      ensures 1 in originalDices ==>
                maxima == maxQuantity[originalDices[1] := maxQuantity[originalDices[1]] + 1]
      ensures 1 !in originalDices ==> maxima == maxQuantity
    {
      var keys := originalDices.Keys;
      counts, maxima := original, maxQuantity;
      while keys != {}
        invariant keys <= originalDices.Keys
        invariant counts.Keys == original.Keys
        invariant forall k :: k in counts ==>
                    counts[k] == original[k] + (if k in originalDices && k !in keys then originalDices[k] else 0)
        invariant 1 in originalDices && 1 !in keys ==>
                    maxima == maxQuantity[originalDices[1] := maxQuantity[originalDices[1]] + 1]
        invariant !(1 in originalDices && 1 !in keys) ==> maxima == maxQuantity
        decreases keys
      {
        NonEmpty(keys);
        var key :| key in keys;
        counts := counts[key := counts[key] + originalDices[key]];
        if key == 1 {
          maxima := maxima[originalDices[1] := maxima[originalDices[1]] + 1];
        }
        keys := keys - {key};
      }
    }

    /**
     * `update` after one game: the bid check, one more win for the winner,
     * one more start for the first player, the game's dealt faces added to the
     * face totals, and one more game for the number of 1s dealt.  The returned
     * flag is the verdict of the corrected bid check `CheckBids`.
     */
    method Update(winner: int, firstPlayer: int, bidRecord: seq<Turn>, originalDices: map<int, int>)
      returns (warned: bool)
      requires winner in results && firstPlayer in firstPlayers
      requires originalDices.Keys <= original.Keys
      requires 1 in originalDices ==> originalDices[1] in maxQuantity
      modifies this
      ensures warned == Warns(bidRecord)
      ensures results == old(results)[winner := old(results)[winner] + 1]
      ensures firstPlayers == old(firstPlayers)[firstPlayer := old(firstPlayers)[firstPlayer] + 1]
      ensures original.Keys == old(original).Keys
      ensures forall k :: k in original ==>
                original[k] == old(original)[k] + (if k in originalDices then originalDices[k] else 0)
      ensures 1 in originalDices ==>
                maxQuantity == old(maxQuantity)[originalDices[1] := old(maxQuantity)[originalDices[1]] + 1]
      ensures 1 !in originalDices ==> maxQuantity == old(maxQuantity)
      ensures numPlayers == old(numPlayers) && numDice == old(numDice) && times == old(times)
    {
      warned := CheckBids(bidRecord);
      results := results[winner := results[winner] + 1];
      firstPlayers := firstPlayers[firstPlayer := firstPlayers[firstPlayer] + 1];
      original, maxQuantity := AddOriginal(original, maxQuantity, originalDices);
    }
  }
}
