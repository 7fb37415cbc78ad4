/**
 * The older, subclass-based decision policies of strategies.py, played by the
 * engine of simulation.py: a shared random `new_bid`, and three `make_bid`
 * variants (random coin, half-the-dice threshold, and an "optimal" expected-value
 * threshold with an escalation informed by the player's own dice).
 */
module Strategies {
  import opened Chance
  import opened GameRules
  import opened BidOrder
  import opened GameStrategies

  /** The subclasses of `Strategy`; they hold no state. */
  datatype Kind = RandomStrategy | ThresholdStrategy | OptimalStrategy

  /**
   * The escalation of `Strategy.new_bid` is the one of `random_bid` drawing new
   * quantities freely; only this setting of the configurable strategy is read.
   */
  const FreeIncrease: Strategy := Strategy(false, Random, false)

  /** The upper end of an opening quantity: `max(2, total_dice // 2)`. */
  function OpeningCap(total: int): (cap: int)
    ensures cap >= 2 && cap >= total / 2
    ensures total >= 2 ==> cap <= total
  {
    if total / 2 > 2 then total / 2 else 2
  }

  /**
   * `Strategy.new_bid`: an opening of 2..max(2, total//2) dice on any face, or a
   * random escalation in a legal category, or "liar" when none is legal.
   */
  function NewBid(current: Option<Bid>, total: int, d: Draws): (a: Action)
    requires current.Some? ==> InBounds(current.value, total)
    ensures current.None? ==> a.Propose? && 2 <= a.bid.quantity <= OpeningCap(total) && IsFace(a.bid.face)
    ensures current.None? && total >= 2 ==> InBounds(a.bid, total)
    ensures current.Some? ==> (a.Liar? <==> current.value == Bid(total, 6))
    ensures current.Some? && a.Propose? ==> Outbids(a.bid, current.value) && InBounds(a.bid, total)
  {
    match current
    case None => Propose(Bid(RandInt(2, OpeningCap(total), d.quantity), RandInt(1, 6, d.face)))
    case Some(_) => RandomBid(FreeIncrease, current, total, d)
  }

  /** Every in-bounds bid that outbids the current one is a possible `new_bid`. */
  lemma NewBidOnto(b: Bid, total: int, c: Bid)
    requires InBounds(b, total) && InBounds(c, total) && Outbids(c, b)
    ensures exists d: Draws :: NewBid(Some(b), total, d) == Propose(c)
  {
    RandomBidOnto(FreeIncrease, b, total, c);
    var d: Draws :| RandomBid(FreeIncrease, Some(b), total, d) == Propose(c);
    assert NewBid(Some(b), total, d) == Propose(c);
  }

  /**
   * `RandomStrategy.make_bid`: a coin decides "liar" first, without looking
   * whether there is a bid to challenge; otherwise `new_bid`.
   */
  function RandomMakeBid(current: Option<Bid>, total: int, d: Draws): (a: Action)
    requires current.Some? ==> InBounds(current.value, total)
    ensures a.Liar? <==> CoinSaysLiar(d.coin) || (current.Some? && current.value == Bid(total, 6))
    ensures current.Some? && a.Propose? ==> Outbids(a.bid, current.value) && InBounds(a.bid, total)
    ensures current.None? && total >= 2 && a.Propose? ==> InBounds(a.bid, total)
  {
    if CoinSaysLiar(d.coin) then Liar else NewBid(current, total, d)
  }

  /** The random strategy may call "liar" on the opening move, when there is nothing to challenge. */
  lemma RandomMayOpenWithLiar(total: int)
    ensures exists d: Draws :: RandomMakeBid(None, total, d).Liar?
  {
    var d := Draws(1, 0, 0, 0, 0);
    assert CoinSaysLiar(d.coin);
    assert RandomMakeBid(None, total, d).Liar?;
  }

  /**
   * `ThresholdStrategy.make_bid`: always bids to open; then "liar" exactly when
   * the bid claims more than half the dice in play (q > total // 2).
   */
  function ThresholdMakeBid(current: Option<Bid>, total: int, d: Draws): (a: Action)
    requires current.Some? ==> InBounds(current.value, total)
    ensures current.None? ==> a.Propose? && 2 <= a.bid.quantity <= OpeningCap(total)
    ensures current.Some? ==> (a.Liar? <==> 2 * current.value.quantity > total)
    ensures current.Some? && a.Propose? ==> Outbids(a.bid, current.value) && InBounds(a.bid, total)
    ensures total >= 2 && a.Propose? ==> InBounds(a.bid, total)
  {
    match current
    case None => NewBid(None, total, d)
    case Some(b) => if b.quantity > total / 2 then Liar else NewBid(current, total, d)
  }

  /**
   * The challenge test of `OptimalStrategy.make_bid` as written: its whole body
   * sits under `if face_value != 1`, so for a bid on face 1 it decides nothing
   * and the method returns None.  Otherwise "liar" when the claim exceeds the
   * own effective count plus a third of the dice in play.
   */
  function OptimalVerdictAsWritten(b: Bid, total: int, own: seq<int>): (v: Option<bool>)
    ensures v.None? <==> b.face == 1
    ensures v.Some? ==>
              (v.value <==> b.quantity as real > total as real / 3.0 + EffectiveCount(own, b.face) as real)
  {
    if b.face != 1 then Some(3 * b.quantity > total + 3 * EffectiveCount(own, b.face)) else None
  }

  /** A bid on face 1 reaches the end of the as-written `make_bid`: no action at all. */
  lemma OptimalFallsThrough(q: int, total: int, own: seq<int>)
    ensures OptimalVerdictAsWritten(Bid(q, 1), total, own) == None
  {
  }

  /**
   * The intended challenge test: the same expected-value threshold for every
   * face, the own count of 1s standing for face 1.
   */
  function OptimalVerdict(b: Bid, total: int, own: seq<int>): (liar: bool)
    ensures liar <==> b.quantity as real > total as real / 3.0 + EffectiveCount(own, b.face) as real
  {
    3 * b.quantity > total + 3 * EffectiveCount(own, b.face)
  }

  /** The intended test agrees with the written one wherever that one decides. */
  lemma OptimalVerdictExtends(b: Bid, total: int, own: seq<int>)
    ensures OptimalVerdictAsWritten(b, total, own).Some? ==>
              OptimalVerdictAsWritten(b, total, own).value == OptimalVerdict(b, total, own)
    ensures b.face == 1 ==> (OptimalVerdict(b, total, own) <==> 3 * b.quantity > total + 3 * Count(own, 1))
  {
  }

  /** Face g has the best own count among the faces above `above`, the smallest such face on ties. */
  predicate BestAbove(own: seq<int>, g: int, above: int) {
    above < g <= 6 &&
    forall h :: above < h <= 6 && h != g ==>
      Count(own, h) < Count(own, g) || (Count(own, h) == Count(own, g) && g < h)
  }

  /**
   * The faces of the sorted (face, count + wildcards) pairs for faces 2 to 6:
   * each of those faces once, by descending count and then ascending face.
   */
  lemma SortedPreferenceFaces(
    own: seq<int>, wildcards: int, preference: seq<(int, int)>, sorted: seq<(int, int)>, faces: seq<int>)
    requires |preference| == 5
    requires forall i :: 0 <= i < |preference| ==> preference[i] == (i + 2, Count(own, i + 2) + wildcards)
    requires SortedByCount(sorted) && multiset(sorted) == multiset(preference)
    requires |faces| == |sorted| && forall i :: 0 <= i < |sorted| ==> faces[i] == sorted[i].0
    ensures |faces| == 5
    ensures forall f :: f in faces <==> 2 <= f <= 6
    ensures forall i, j :: 0 <= i < j < |faces| ==>
              Count(own, faces[i]) > Count(own, faces[j]) ||
              (Count(own, faces[i]) == Count(own, faces[j]) && faces[i] < faces[j])
  {
    assert |sorted| == |multiset(sorted)| == |multiset(preference)| == 5;
    forall i | 0 <= i < |sorted|
      ensures 2 <= sorted[i].0 <= 6 && sorted[i].1 == Count(own, sorted[i].0) + wildcards
    {
      assert sorted[i] in multiset(preference);
    }
    forall f | 2 <= f <= 6
      ensures f in faces
    {
      assert preference[f - 2] in multiset(sorted);
      var k :| 0 <= k < |sorted| && sorted[k] == preference[f - 2];
      assert faces[k] == f;
    }
    forall i, j | 0 <= i < j < |faces|
      ensures Count(own, faces[i]) > Count(own, faces[j]) ||
              (Count(own, faces[i]) == Count(own, faces[j]) && faces[i] < faces[j])
    {
      assert Before(sorted[i], sorted[j]);
    }
  }

  /**
   * `OptimalStrategy.preferred_faces`: the faces 2..6 ordered by their count in
   * the own dice plus the 1s, highest first, ties by ascending face.  Every face
   * gets the same wildcard bonus, so the order is that of the own counts.
   */
  method OptimalPreferredFaces(own: seq<int>) returns (faces: seq<int>)
    ensures |faces| == 5
    ensures forall f :: f in faces <==> 2 <= f <= 6
    ensures forall i, j :: 0 <= i < j < |faces| ==>
              Count(own, faces[i]) > Count(own, faces[j]) ||
              (Count(own, faces[i]) == Count(own, faces[j]) && faces[i] < faces[j])
  {
    var wildcards := Count(own, 1);
    var preference: seq<(int, int)> := [];
    for face := 2 to 7
      invariant |preference| == face - 2
      invariant forall i :: 0 <= i < |preference| ==> preference[i] == (i + 2, Count(own, i + 2) + wildcards)
    {
      preference := preference + [(face, Count(own, face) + wildcards)];
    }
    var sorted := SortByCount(preference);
    faces := seq(|sorted|, i requires 0 <= i < |sorted| => sorted[i].0);
    SortedPreferenceFaces(own, wildcards, preference, sorted, faces);
  }

  /**
   * `OptimalStrategy.inform_bid`: the first preferred face above the current face,
   * with one more die while that still fits; failing that, one more die on the
   * same face; failing that, "liar".
   */
  method OptimalInformBid(b: Bid, total: int, own: seq<int>) returns (a: Action)
    requires InBounds(b, total)
    ensures a.Liar? <==> b == Bid(total, 6)
    ensures a.Propose? ==> Outbids(a.bid, b) && InBounds(a.bid, total)
    ensures b.face < 6 ==>
              a.Propose? && BestAbove(own, a.bid.face, b.face) &&
              a.bid.quantity == (if b.quantity < total then b.quantity + 1 else b.quantity)
    ensures b.face == 6 && b.quantity < total ==> a == Propose(Bid(b.quantity + 1, 6))
  {
    var faces := OptimalPreferredFaces(own);
    for i := 0 to |faces|
      invariant forall k :: 0 <= k < i ==> faces[k] <= b.face
    {
      if faces[i] > b.face {
        assert faces[i] in faces;
        forall h | b.face < h <= 6 && h != faces[i]
          ensures Count(own, h) < Count(own, faces[i]) || (Count(own, h) == Count(own, faces[i]) && faces[i] < h)
        {
          assert h in faces;
          var k :| 0 <= k < |faces| && faces[k] == h;
          assert i < k;
        }
        var quantity := b.quantity;
        if quantity < total {
          quantity := quantity + 1;
        }
        return Propose(Bid(quantity, faces[i]));
      }
    }
    assert 6 in faces;
    var six :| 0 <= six < |faces| && faces[six] == 6;
    assert b.face == 6;
    if b.quantity < total {
      return Propose(Bid(b.quantity + 1, b.face));
    }
    return Liar;
  }

  /**
   * What `OptimalStrategy.make_bid` answers to the bid `b` once it decides:
   * "liar" exactly past the expected-value threshold or at `[total, 6]`;
   * otherwise `inform_bid`'s bid, the best-preferred face above with one more
   * die while that fits, or one more die on face 6.
   */
  ghost predicate OptimalAnswer(b: Bid, total: int, own: seq<int>, a: Action) {
    && (a.Liar? <==> OptimalVerdict(b, total, own) || b == Bid(total, 6))
    && (a.Propose? ==> Outbids(a.bid, b) && InBounds(a.bid, total))
    && (a.Propose? && b.face < 6 ==>
          BestAbove(own, a.bid.face, b.face) &&
          a.bid.quantity == (if b.quantity < total then b.quantity + 1 else b.quantity))
    && (a.Propose? && b.face == 6 ==> a == Propose(Bid(b.quantity + 1, 6)))
  }

  /**
   * `OptimalStrategy.make_bid` as written: the opening is `new_bid`; a bid on
   * face 1 gets no answer (None); otherwise the expected-value test, then
   * `inform_bid`.
   */
  method OptimalMakeBidAsWritten(current: Option<Bid>, total: int, own: seq<int>, d: Draws)
    returns (r: Option<Action>)
    requires current.Some? ==> InBounds(current.value, total)
    ensures r.None? <==> current.Some? && current.value.face == 1
    ensures current.None? ==> r.Some? && r.value.Propose? && 2 <= r.value.bid.quantity <= OpeningCap(total)
    ensures current.Some? && r.Some? ==>
              (r.value.Liar? <==> OptimalVerdict(current.value, total, own) || current.value == Bid(total, 6))
    ensures current.Some? && r.Some? && r.value.Propose? ==>
              Outbids(r.value.bid, current.value) && InBounds(r.value.bid, total)
    ensures current.Some? && r.Some? && r.value.Propose? && current.value.face < 6 ==>
              BestAbove(own, r.value.bid.face, current.value.face) &&
              r.value.bid.quantity ==
                (if current.value.quantity < total then current.value.quantity + 1 else current.value.quantity)
    ensures current.Some? && r.Some? && r.value.Propose? && current.value.face == 6 ==>
              r.value == Propose(Bid(current.value.quantity + 1, 6))
    ensures current.None? ==> r == Some(NewBid(None, total, d))
    ensures current.Some? && r.Some? ==> OptimalAnswer(current.value, total, own, r.value)
  {
    if current.None? {
      return Some(NewBid(current, total, d));
    }
    var b := current.value;
    var verdict := OptimalVerdictAsWritten(b, total, own);
    if verdict.None? {
      return None;
    }
    if verdict.value {
      return Some(Liar);
    }
    var a := OptimalInformBid(b, total, own);
    r := Some(a);
  }

  /**
   * `OptimalStrategy.make_bid` with the intended indentation: the opening is
   * `new_bid`; then "liar" when the claim beats the expected-value threshold,
   * else the informed escalation.
   */
  method OptimalMakeBid(current: Option<Bid>, total: int, own: seq<int>, d: Draws) returns (a: Action)
    requires current.Some? ==> InBounds(current.value, total)
    ensures current.None? ==> a.Propose? && 2 <= a.bid.quantity <= OpeningCap(total)
    ensures current.Some? ==> (a.Liar? <==> OptimalVerdict(current.value, total, own) || current.value == Bid(total, 6))
    ensures current.Some? && a.Propose? ==> Outbids(a.bid, current.value) && InBounds(a.bid, total)
    ensures current.Some? && a.Propose? && current.value.face < 6 ==> BestAbove(own, a.bid.face, current.value.face)
    ensures current.Some? && a.Propose? && current.value.face < 6 ==>
              a.bid.quantity ==
                (if current.value.quantity < total then current.value.quantity + 1 else current.value.quantity)
    ensures current.Some? && a.Propose? && current.value.face == 6 ==> a == Propose(Bid(current.value.quantity + 1, 6))
    ensures total >= 2 && a.Propose? ==> InBounds(a.bid, total)
    ensures current.None? ==> a == NewBid(None, total, d)
    ensures current.Some? ==> OptimalAnswer(current.value, total, own, a)
  {
    if current.None? {
      return NewBid(current, total, d);
    }
    var b := current.value;
    if OptimalVerdict(b, total, own) {
      return Liar;
    }
    a := OptimalInformBid(b, total, own);
  }

  /**
   * `strategy.make_bid(current_bid, total_dice, own_dice)` for the strategy's
   * subclass.  Only the random strategy may call "liar" with no bid in force; a
   * bid always outbids the bid in force and stays in bounds.
   */
  method MakeBid(kind: Kind, current: Option<Bid>, total: int, own: seq<int>, d: Draws) returns (a: Action)
    requires current.Some? ==> InBounds(current.value, total)
    ensures current.None? && a.Liar? ==> kind == RandomStrategy
    ensures current.Some? && a.Propose? ==> Outbids(a.bid, current.value) && InBounds(a.bid, total)
    ensures total >= 2 && a.Propose? ==> InBounds(a.bid, total)
    ensures current.Some? && current.value == Bid(total, 6) ==> a.Liar?
    ensures kind == RandomStrategy ==> a == RandomMakeBid(current, total, d)
    ensures kind == ThresholdStrategy ==> a == ThresholdMakeBid(current, total, d)
    ensures kind == OptimalStrategy && current.None? ==> a == NewBid(None, total, d)
    ensures kind == OptimalStrategy && current.Some? ==> OptimalAnswer(current.value, total, own, a)
  {
    match kind
    case RandomStrategy => a := RandomMakeBid(current, total, d);
    case ThresholdStrategy => a := ThresholdMakeBid(current, total, d);
    case OptimalStrategy => a := OptimalMakeBid(current, total, own, d);
  }

  /**
   * `strategy.make_bid` as strategies.py is written: the Optimal strategy gives
   * no action (`None`) on a bid on face 1, and the other two always act.
   */
  method MakeBidAsWritten(kind: Kind, current: Option<Bid>, total: int, own: seq<int>, d: Draws)
    returns (r: Option<Action>)
    requires current.Some? ==> InBounds(current.value, total)
    ensures r.None? <==> kind == OptimalStrategy && current.Some? && current.value.face == 1
    ensures current.None? && r.Some? && r.value.Liar? ==> kind == RandomStrategy
    ensures current.Some? && r.Some? && r.value.Propose? ==> Outbids(r.value.bid, current.value) && InBounds(r.value.bid, total)
    ensures kind == RandomStrategy ==> r == Some(RandomMakeBid(current, total, d))
    ensures kind == ThresholdStrategy ==> r == Some(ThresholdMakeBid(current, total, d))
    ensures kind == OptimalStrategy && current.None? ==> r == Some(NewBid(None, total, d))
    ensures kind == OptimalStrategy && current.Some? && r.Some? ==> OptimalAnswer(current.value, total, own, r.value)
  {
    match kind
    case RandomStrategy =>
      var a := RandomMakeBid(current, total, d);
      r := Some(a);
    case ThresholdStrategy =>
      var a := ThresholdMakeBid(current, total, d);
      r := Some(a);
    case OptimalStrategy =>
      r := OptimalMakeBidAsWritten(current, total, own, d);
  }
}
