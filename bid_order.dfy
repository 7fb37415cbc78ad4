/**
 * The order in which bids escalate.  Every strategy that bids again raises the
 * previous bid in this order, and the bounded room above a bid is what makes
 * every game end.
 */
module BidOrder {
  import opened GameRules

  /** A bid that can be true with `total` dice in play. */
  predicate InBounds(b: Bid, total: int) {
    1 <= b.quantity <= total && IsFace(b.face)
  }

  /** Lexicographic escalation: more dice, or as many dice on a higher face. */
  predicate Outbids(next: Bid, prev: Bid) {
    next.quantity > prev.quantity || (next.quantity == prev.quantity && next.face > prev.face)
  }

  /** The test the bid-sequence validator applies to consecutive bids: quantity or face went up. */
  predicate Increases(prev: Bid, next: Bid) {
    next.quantity > prev.quantity || next.face > prev.face
  }

  /**
   * The room left above the current bid: for a bid in bounds, the number of
   * in-bounds bids that outbid it; with no bid yet, more than any bid leaves.
   */
  function BidRoom(current: Option<Bid>, total: int): nat {
    match current
    case None => if total >= 0 then 6 * total + 6 else 0
    case Some(b) => if InBounds(b, total) then 6 * (total - b.quantity) + (6 - b.face) else 0
  }

  /** Outbidding leaves strictly less room. */
  lemma OutbidsShrinksRoom(prev: Bid, next: Bid, total: int)
    requires InBounds(prev, total) && InBounds(next, total)
    requires Outbids(next, prev)
    ensures BidRoom(Some(next), total) < BidRoom(Some(prev), total)
  {
  }

  /** An opening bid leaves less room than no bid at all. */
  lemma OpeningShrinksRoom(b: Bid, total: int)
    requires InBounds(b, total)
    ensures BidRoom(Some(b), total) < BidRoom(None, total)
  {
  }

  /** Outbidding passes the validator's test. */
  lemma OutbidsIncreases(prev: Bid, next: Bid)
    requires Outbids(next, prev)
    ensures Increases(prev, next)
  {
  }

  /** Outbidding is a strict order. */
  lemma OutbidsStrictOrder(a: Bid, b: Bid, c: Bid)
    ensures !Outbids(a, a)
    ensures Outbids(c, b) && Outbids(b, a) ==> Outbids(c, a)
  {
  }

  /** The only in-bounds bid nothing can outbid is "all the dice show 6". */
  lemma TopBid(b: Bid, total: int)
    requires InBounds(b, total)
    ensures (exists c :: InBounds(c, total) && Outbids(c, b)) <==> b != Bid(total, 6)
  {
    if b != Bid(total, 6) {
      var c := if b.quantity < total then Bid(b.quantity + 1, b.face) else Bid(b.quantity, b.face + 1);
      assert InBounds(c, total) && Outbids(c, b);
    }
  }
}
