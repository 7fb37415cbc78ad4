/**
 * The configurable decision policy of the current engine (`Strategy` of
 * game_strategies.py): escalation (random or informed by the player's own dice,
 * with or without conservative +1 increases) and the challenge decision (Random,
 * Normal or Optimal threshold), composed by `MakeAction`.
 */
module GameStrategies {
  import opened Chance
  import opened GameRules
  import opened BidOrder

  datatype Threshold = Random | Normal | Optimal

  /** The three settings a strategy is built from; they never change afterwards. */
  datatype Strategy = Strategy(preferBid: bool, liarThreshold: Threshold, conservativeIncrease: bool)

  function ThresholdName(t: Threshold): string {
    match t
    case Random => "Random"
    case Normal => "Normal"
    case Optimal => "Optimal"
  }

  /**
   * `Strategy(prefer_bid=False, liar_threshold="Random", conservative_increase=False)`:
   * rejects an unknown threshold name.
   */
  function NewStrategy(preferBid: bool := false, liarThreshold: string := "Random", conservativeIncrease: bool := false)
    : (r: Result<Strategy>)
    ensures r.Ok? <==> liarThreshold in {"Random", "Normal", "Optimal"}
    ensures r.Failure? ==> r.error == UnknownThreshold
    ensures r.Ok? ==> r.value.preferBid == preferBid && r.value.conservativeIncrease == conservativeIncrease
    ensures r.Ok? ==> ThresholdName(r.value.liarThreshold) == liarThreshold
  {
    if liarThreshold == "Random" then Ok(Strategy(preferBid, Random, conservativeIncrease))
    else if liarThreshold == "Normal" then Ok(Strategy(preferBid, Normal, conservativeIncrease))
    else if liarThreshold == "Optimal" then Ok(Strategy(preferBid, Optimal, conservativeIncrease))
    else Failure(UnknownThreshold)
  }

  /** `Strategy()` with every default: a random bidder with the Random threshold and free increases. */
  lemma DefaultStrategy()
    ensures NewStrategy() == Ok(Strategy(false, Random, false))
  {
  }

  /** The four ways `random_bid` can escalate a bid. */
  datatype Category = SameQuantity | SameFaceValue | BothIncrease | HigherQuantitySmallerFace

  /** When a category can produce a bid that stays in bounds. */
  predicate Legal(c: Category, b: Bid, total: int) {
    match c
    case SameQuantity => b.face < 6
    case SameFaceValue => b.quantity < total
    case BothIncrease => b.face < 6 && b.quantity < total
    case HigherQuantitySmallerFace => b.face > 1 && b.quantity < total
  }

  /** `list.remove(x)`: the list without the first occurrence of x. */
  function Remove<T(==)>(xs: seq<T>, x: T): (r: seq<T>)
    requires x in xs
    ensures |r| == |xs| - 1
  {
    if xs[0] == x then
      assert xs == [xs[0]] + xs[1..];
      xs[1..]
    else
      assert xs == [xs[0]] + xs[1..];
      [xs[0]] + Remove(xs[1..], x)
  }

  /** The four categories, in the order `random_bid` lists them. */
  const AllCategories: seq<Category> := [SameQuantity, SameFaceValue, BothIncrease, HigherQuantitySmallerFace]

  /** `random_bid`'s removals for a face 6: no category that raises the face is left. */
  function RemovedForSix(): (cs: seq<Category>)
    ensures cs == [SameFaceValue, HigherQuantitySmallerFace]
  {
    var r1 := Remove(AllCategories, SameQuantity);
    assert r1 == AllCategories[1..] == [SameFaceValue, BothIncrease, HigherQuantitySmallerFace];
    var tail := r1[1..];
    assert tail == [BothIncrease, HigherQuantitySmallerFace];
    assert Remove(tail, BothIncrease) == tail[1..] == [HigherQuantitySmallerFace];
    assert Remove(r1, BothIncrease) == [SameFaceValue] + Remove(tail, BothIncrease);
    Remove(r1, BothIncrease)
  }

  /** `random_bid`'s removal for a face 1: no category that lowers the face is left. */
  function RemovedForOne(): (cs: seq<Category>)
    ensures cs == [SameQuantity, SameFaceValue, BothIncrease]
  {
    var t1 := AllCategories[1..];
    var t2 := t1[1..];
    var t3 := t2[1..];
    assert t3 == [HigherQuantitySmallerFace];
    assert Remove(t3, HigherQuantitySmallerFace) == [];
    assert Remove(t2, HigherQuantitySmallerFace) == [BothIncrease] + Remove(t3, HigherQuantitySmallerFace);
    assert Remove(t1, HigherQuantitySmallerFace) == [SameFaceValue] + Remove(t2, HigherQuantitySmallerFace);
    Remove(AllCategories, HigherQuantitySmallerFace)
  }

  /**
   * The `available_strategies` list of `random_bid` after its removals: exactly
   * the categories that are legal for the bid.
   */
  function AvailableCategories(b: Bid, total: int): (cs: seq<Category>)
    requires InBounds(b, total)
    ensures SameQuantity in cs <==> Legal(SameQuantity, b, total)
    ensures SameFaceValue in cs <==> Legal(SameFaceValue, b, total)
    ensures BothIncrease in cs <==> Legal(BothIncrease, b, total)
    ensures HigherQuantitySmallerFace in cs <==> Legal(HigherQuantitySmallerFace, b, total)
  {
    if b.quantity == total then (if b.face < 6 then [SameQuantity] else []) else (if b.face == 6 then RemovedForSix() else if b.face == 1 then RemovedForOne() else AllCategories)
  }

  /** Every category `random_bid` may choose is legal, and every legal one is offered. */
  lemma AvailableCategoriesLegal(b: Bid, total: int)
    requires InBounds(b, total)
    ensures forall c :: c in AvailableCategories(b, total) <==> Legal(c, b, total)
  {
    forall c
      ensures c in AvailableCategories(b, total) <==> Legal(c, b, total)
    {
      match c
      case SameQuantity =>
      case SameFaceValue =>
      case BothIncrease =>
      case HigherQuantitySmallerFace =>
    }
  }

  /** The quantity range of an opening bid: from total//10 + 1 up to max(that, total//2). */
  predicate OpeningRange(total: int, q: int) {
    var starter := total / 10 + 1;
    starter <= q <= (if total / 2 > starter then total / 2 else starter)
  }

  /** The quantity of an opening bid (Python's `//` is Dafny's `/` for a positive divisor). */
  function OpeningQuantity(total: int, r: nat): (q: int)
    ensures OpeningRange(total, q)
    ensures total >= 1 ==> 1 <= q <= total
  {
    var starter := total / 10 + 1;
    RandInt(starter, if total / 2 > starter then total / 2 else starter, r)
  }

  /** With 20 dice an opening bid claims between 3 and 10 dice. */
  lemma OpeningRangeOfTwenty(q: int)
    ensures OpeningRange(20, q) <==> 3 <= q <= 10
  {
  }

  /** `increase_quantity`: one more die if conservative, else some quantity up to the total. */
  function IncreaseQuantity(s: Strategy, q: int, total: int, r: nat): (n: int)
    requires q < total
    ensures q < n <= total
    ensures s.conservativeIncrease ==> n == q + 1
  {
    if s.conservativeIncrease then (if q + 1 < total then q + 1 else total)
    else RandInt(q + 1, total, r)
  }

  /**
   * `random_bid`: an opening bid, or an escalation of the current bid in a legal
   * category chosen at random, or "liar" when nothing is legal.
   */
  function RandomBid(s: Strategy, current: Option<Bid>, total: int, d: Draws): (a: Action)
    requires current.Some? ==> InBounds(current.value, total)
    ensures current.None? ==> a.Propose? && OpeningRange(total, a.bid.quantity) && IsFace(a.bid.face)
    ensures current.Some? ==> (a.Liar? <==> current.value == Bid(total, 6))
    ensures current.Some? && a.Propose? ==> Outbids(a.bid, current.value) && InBounds(a.bid, total)
    ensures current.Some? && current.value.quantity == total && a.Propose? ==>
              a.bid.quantity == total && a.bid.face > current.value.face
    ensures current.Some? && a.Propose? && s.conservativeIncrease && a.bid.quantity != current.value.quantity ==>
              a.bid.quantity == current.value.quantity + 1
  {
    match current
    case None => Propose(Bid(OpeningQuantity(total, d.quantity), RandInt(1, 6, d.face)))
    case Some(b) =>
      var cs := AvailableCategories(b, total);
      if cs == [] then
        assert !Legal(SameQuantity, b, total) && !Legal(SameFaceValue, b, total);
        Liar
      else
        match Choice(cs, d.category)
        case SameQuantity => Propose(Bid(b.quantity, RandInt(b.face + 1, 6, d.face)))
        case SameFaceValue => Propose(Bid(IncreaseQuantity(s, b.quantity, total, d.quantity), b.face))
        case BothIncrease =>
          Propose(Bid(IncreaseQuantity(s, b.quantity, total, d.quantity), RandInt(b.face + 1, 6, d.face)))
        case HigherQuantitySmallerFace =>
          Propose(Bid(IncreaseQuantity(s, b.quantity, total, d.quantity),
                      if b.face > 1 then RandInt(1, b.face - 1, d.face) else 1))
  }

  /**
   * Without conservative increases every in-bounds bid that outbids the current
   * one is a possible escalation: the four categories cover all of them.
   */
  lemma RandomBidOnto(s: Strategy, b: Bid, total: int, c: Bid)
    requires !s.conservativeIncrease
    requires InBounds(b, total) && InBounds(c, total) && Outbids(c, b)
    ensures exists d: Draws :: RandomBid(s, Some(b), total, d) == Propose(c)
  {
    var cs := AvailableCategories(b, total);
    var cat := if c.quantity == b.quantity then SameQuantity
               else if c.face == b.face then SameFaceValue
               else if c.face > b.face then BothIncrease
               else HigherQuantitySmallerFace;
    assert Legal(cat, b, total);
    var i :| 0 <= i < |cs| && cs[i] == cat;
    ChoiceAt(cs, i);
    var qd: nat := if c.quantity > b.quantity then c.quantity - (b.quantity + 1) else 0;
    var fd: nat := if c.face > b.face then c.face - (b.face + 1) else if c.face < b.face then c.face - 1 else 0;
    var d := Draws(0, i, qd, fd, 0);
    assert Choice(cs, d.category) == cat;
    if c.quantity > b.quantity {
      RandIntExact(b.quantity + 1, total, c.quantity);
    }
    if c.face > b.face {
      RandIntExact(b.face + 1, 6, c.face);
    } else if c.face < b.face {
      RandIntExact(1, b.face - 1, c.face);
    }
    assert RandomBid(s, Some(b), total, d) == Propose(c);
  }

  /** Dictionary order of `preferred_faces`: higher count first, ties by ascending face. */
  predicate Before(a: (int, int), b: (int, int)) {
    a.1 > b.1 || (a.1 == b.1 && a.0 < b.0)
  }

  predicate SortedByCount(s: seq<(int, int)>) {
    forall i, j :: 0 <= i < j < |s| ==> Before(s[i], s[j])
  }

  predicate DistinctFaces(s: seq<(int, int)>) {
    forall i, j :: 0 <= i < j < |s| ==> s[i].0 != s[j].0
  }

  function Insert(x: (int, int), s: seq<(int, int)>): (r: seq<(int, int)>)
    requires SortedByCount(s)
    requires forall y :: y in s ==> y.0 != x.0
    ensures SortedByCount(r)
    ensures multiset(r) == multiset(s) + multiset{x}
    ensures forall y :: y in r ==> y == x || y in s
  {
    if s == [] then [x]
    else if Before(x, s[0]) then
      ConsSorted(x, s);
      [x] + s
    else
      assert s == [s[0]] + s[1..];
      assert s[0] in s;
      var rest := Insert(x, s[1..]);
      HeadBefore(s, x, rest);
      ConsSorted(s[0], rest);
      [s[0]] + rest
  }

  /** An item before everything of a sorted list can go in front of it. */
  lemma ConsSorted(h: (int, int), s: seq<(int, int)>)
    requires SortedByCount(s)
    requires forall y :: y in s ==> Before(h, y)
    ensures SortedByCount([h] + s)
  {
    var r := [h] + s;
    forall i, j | 0 <= i < j < |r|
      ensures Before(r[i], r[j])
    {
      if i == 0 {
        assert r[j] == s[j - 1] && s[j - 1] in s;
      } else {
        assert r[i] == s[i - 1] && r[j] == s[j - 1];
      }
    }
  }

  /** The head of a sorted list comes before the rest of it, and before an item that does not go first. */
  lemma HeadBefore(s: seq<(int, int)>, x: (int, int), rest: seq<(int, int)>)
    requires s != [] && SortedByCount(s) && Before(s[0], x)
    requires forall y :: y in rest ==> y == x || y in s[1..]
    ensures forall y :: y in rest ==> Before(s[0], y)
  {
    forall y | y in rest
      ensures Before(s[0], y)
    {
      if y != x {
        var k :| 0 <= k < |s[1..]| && s[1..][k] == y;
        assert s[k + 1] == y;
      }
    }
  }

  /**
   * Python's `sorted(items, key=count, reverse=True)` of items listed by ascending
   * face: sorting is stable, so ties keep ascending face order, which is `Before`.
   */
  function SortByCount(items: seq<(int, int)>): (r: seq<(int, int)>)
    requires DistinctFaces(items)
    ensures SortedByCount(r)
    ensures multiset(r) == multiset(items)
  {
    if items == [] then []
    else
      assert items == [items[0]] + items[1..];
      var rest := SortByCount(items[1..]);
      assert forall y :: y in rest ==> y in multiset(items[1..]);
      Insert(items[0], rest)
  }

  /** What `preferred_faces` promises: each face 1..6 once, with its effective count in the own dice. */
  ghost predicate Preference(own: seq<int>, prefs: seq<(int, int)>) {
    && |prefs| == 6
    && (forall i :: 0 <= i < |prefs| ==> IsFace(prefs[i].0) && prefs[i].1 == EffectiveCount(own, prefs[i].0))
    && (forall f :: IsFace(f) ==> (f, EffectiveCount(own, f)) in prefs)
  }

  /**
   * `preferred_faces`: every face with its wildcard-adjusted count in the
   * player's own dice, most frequent first, ties by ascending face.
   */
  method PreferredFaces(own: seq<int>) returns (prefs: seq<(int, int)>)
    ensures Preference(own, prefs)
    ensures SortedByCount(prefs)
  {
    var wildcards := Count(own, 1);
    var preference: seq<(int, int)> := [];
    for face := 1 to 7
      invariant |preference| == face - 1
      invariant forall i :: 0 <= i < |preference| ==> preference[i] == (i + 1, EffectiveCount(own, i + 1))
    {
      preference := preference + [(face, Count(own, face) + (if face != 1 then wildcards else 0))];
    }
    prefs := SortByCount(preference);
    forall f | IsFace(f)
      ensures (f, EffectiveCount(own, f)) in prefs
    {
      assert preference[f - 1] in multiset(prefs);
    }
    forall i | 0 <= i < |prefs|
      ensures IsFace(prefs[i].0) && prefs[i].1 == EffectiveCount(own, prefs[i].0)
    {
      assert prefs[i] in multiset(preference);
    }
  }

  /** The example of the documentation: [1, 1, 2, 3, 3, 6] orders as {3: 4, 2: 3, 6: 3, 1: 2, 4: 2, 5: 2}. */
  lemma PreferredFacesExample(own: seq<int>, prefs: seq<(int, int)>)
    requires own == [1, 1, 2, 3, 3, 6]
    requires prefs == [(3, 4), (2, 3), (6, 3), (1, 2), (4, 2), (5, 2)]
    ensures Preference(own, prefs) && SortedByCount(prefs)
  {
    ExampleCounts(own);
    forall f | IsFace(f)
      ensures (f, EffectiveCount(own, f)) in prefs
    {
      var i := if f == 3 then 0 else if f == 2 then 1 else if f == 6 then 2 else if f == 1 then 3 else if f == 4 then 4 else 5;
      assert prefs[i] == (f, EffectiveCount(own, f));
    }
  }

  /** The effective counts of the documented hand. */
  lemma ExampleCounts(own: seq<int>)
    requires own == [1, 1, 2, 3, 3, 6]
    ensures EffectiveCount(own, 1) == 2 && EffectiveCount(own, 2) == 3 && EffectiveCount(own, 3) == 4
    ensures EffectiveCount(own, 4) == 2 && EffectiveCount(own, 5) == 2 && EffectiveCount(own, 6) == 3
  {
    forall v | 1 <= v <= 6
      ensures Count(own, v) == multiset(own)[v]
    {
      CountIsMultiplicity(own, v);
    }
  }

  /** `max(preferred_faces.values())`. */
  function MaxCount(prefs: seq<(int, int)>): (m: int)
    requires |prefs| > 0
    ensures forall i :: 0 <= i < |prefs| ==> prefs[i].1 <= m
    ensures exists i :: 0 <= i < |prefs| && prefs[i].1 == m
  {
    if |prefs| == 1 then prefs[0].1
    else
      var m := MaxCount(prefs[1..]);
      if prefs[0].1 > m then prefs[0].1 else m
  }

  /** The faces from `from` up to 6 listed with count m, ascending. */
  function FacesWith(prefs: seq<(int, int)>, m: int, from: int): (fs: seq<int>)
    requires 1 <= from <= 7
    decreases 7 - from
    ensures forall i :: 0 <= i < |fs| ==> from <= fs[i] <= 6 && (fs[i], m) in prefs
    ensures forall g :: from <= g <= 6 && (g, m) in prefs ==> g in fs
    ensures forall i, j :: 0 <= i < j < |fs| ==> fs[i] < fs[j]
  {
    if from == 7 then []
    else if (from, m) in prefs then [from] + FacesWith(prefs, m, from + 1)
    else FacesWith(prefs, m, from + 1)
  }

  /** `get_top_faces`: the faces tied for the highest count, ascending. */
  function TopFaces(prefs: seq<(int, int)>): seq<int>
    requires |prefs| > 0
  {
    FacesWith(prefs, MaxCount(prefs), 1)
  }

  /** A face with the highest effective count in the own dice. */
  ghost predicate IsTop(own: seq<int>, f: int) {
    IsFace(f) && forall g :: IsFace(g) ==> EffectiveCount(own, g) <= EffectiveCount(own, f)
  }

  /** The smallest top face above `above`. */
  ghost predicate SmallestTopAbove(own: seq<int>, f: int, above: int) {
    IsTop(own, f) && f > above && forall g :: IsTop(own, g) && g > above ==> f <= g
  }

  /** The highest effective count among the faces `from`..6 of the own dice. */
  function MaxEffective(own: seq<int>, from: int): (m: nat)
    requires 1 <= from <= 6
    decreases 6 - from
    ensures forall g :: from <= g <= 6 ==> EffectiveCount(own, g) <= m
    ensures exists g :: from <= g <= 6 && EffectiveCount(own, g) == m
  {
    if from == 6 then EffectiveCount(own, 6)
    else
      var m := MaxEffective(own, from + 1);
      if EffectiveCount(own, from) > m then EffectiveCount(own, from) else m
  }

  /** The faces `from`..6 whose effective count in the own dice is m, ascending. */
  function FacesCounting(own: seq<int>, m: int, from: int): (fs: seq<int>)
    requires 1 <= from <= 7
    decreases 7 - from
    ensures forall i :: 0 <= i < |fs| ==> from <= fs[i] <= 6 && EffectiveCount(own, fs[i]) == m
    ensures forall g :: g in fs <==> from <= g <= 6 && EffectiveCount(own, g) == m
    ensures forall i, j :: 0 <= i < j < |fs| ==> fs[i] < fs[j]
  {
    if from == 7 then []
    else if EffectiveCount(own, from) == m then [from] + FacesCounting(own, m, from + 1)
    else FacesCounting(own, m, from + 1)
  }

  /** The top faces of a hand, defined from the dice alone: ascending, and exactly the faces of highest effective count. */
  function TopFacesOf(own: seq<int>): (top: seq<int>)
    ensures |top| > 0
    ensures forall f :: f in top <==> IsTop(own, f)
    ensures forall i, j :: 0 <= i < j < |top| ==> top[i] < top[j]
  {
    var m := MaxEffective(own, 1);
    TopIsMax(own, m);
    FacesCounting(own, m, 1)
  }

  /** The top faces are the faces whose effective count is the maximum. */
  lemma TopIsMax(own: seq<int>, m: int)
    requires forall g :: 1 <= g <= 6 ==> EffectiveCount(own, g) <= m
    requires exists g :: 1 <= g <= 6 && EffectiveCount(own, g) == m
    ensures forall f :: IsTop(own, f) <==> IsFace(f) && EffectiveCount(own, f) == m
    ensures |FacesCounting(own, m, 1)| > 0
  {
    var g :| 1 <= g <= 6 && EffectiveCount(own, g) == m;
    forall f | IsTop(own, f)
      ensures EffectiveCount(own, f) == m
    {
      assert EffectiveCount(own, g) <= EffectiveCount(own, f);
    }
    assert g in FacesCounting(own, m, 1);
  }

  /** Over a preference of the own dice, `get_top_faces` lists the faces of `TopFacesOf`. */
  lemma TopFacesMatch(own: seq<int>, prefs: seq<(int, int)>)
    requires Preference(own, prefs)
    ensures TopFaces(prefs) == TopFacesOf(own)
  {
    var m := MaxCount(prefs);
    var k :| 0 <= k < |prefs| && prefs[k].1 == m;
    forall g | IsFace(g)
      ensures EffectiveCount(own, g) <= m
    {
      var j :| 0 <= j < |prefs| && prefs[j] == (g, EffectiveCount(own, g));
    }
    var e := MaxEffective(own, 1);
    var g :| 1 <= g <= 6 && EffectiveCount(own, g) == e;
    var j :| 0 <= j < |prefs| && prefs[j] == (g, EffectiveCount(own, g));
    assert m == e;
    FacesWithMatch(own, prefs, m, 1);
  }

  lemma {:induction false} FacesWithMatch(own: seq<int>, prefs: seq<(int, int)>, m: int, from: int)
    requires Preference(own, prefs)
    requires 1 <= from <= 7
    decreases 7 - from
    ensures FacesWith(prefs, m, from) == FacesCounting(own, m, from)
  {
    if from < 7 {
      FacesWithMatch(own, prefs, m, from + 1);
      assert (from, m) in prefs <==> EffectiveCount(own, from) == m by {
        if (from, m) in prefs {
          var i :| 0 <= i < |prefs| && prefs[i] == (from, m);
        }
        if EffectiveCount(own, from) == m {
          assert (from, EffectiveCount(own, from)) in prefs;
        }
      }
    }
  }

  /** The first face of `top` above `above`, if any: the `for face in top_faces` scan. */
  function FirstAbove(top: seq<int>, above: int): (r: Option<int>)
    ensures r.Some? ==> r.value in top && r.value > above
    ensures r.None? <==> forall i :: 0 <= i < |top| ==> top[i] <= above
  {
    if top == [] then None
    else if top[0] > above then Some(top[0])
    else FirstAbove(top[1..], above)
  }

  /** On an ascending list, the first face above `above` is also the smallest one. */
  lemma {:induction false} FirstAboveSmallest(top: seq<int>, above: int)
    requires forall i, j :: 0 <= i < j < |top| ==> top[i] < top[j]
    ensures FirstAbove(top, above).Some? ==>
              forall i :: 0 <= i < |top| && top[i] > above ==> FirstAbove(top, above).value <= top[i]
  {
    if top != [] && top[0] <= above {
      FirstAboveSmallest(top[1..], above);
      forall i | 1 <= i < |top| && top[i] > above
        ensures FirstAbove(top, above).value <= top[i]
      {
        assert top[i] == top[1..][i - 1];
      }
    }
  }

  /** The face the scan finds is the smallest top face above `above`; finding none means no top face is above it. */
  lemma FirstTopAbove(own: seq<int>, above: int)
    ensures FirstAbove(TopFacesOf(own), above).Some? ==>
              SmallestTopAbove(own, FirstAbove(TopFacesOf(own), above).value, above)
    ensures FirstAbove(TopFacesOf(own), above).None? <==> forall f :: IsTop(own, f) ==> f <= above
  {
    var top := TopFacesOf(own);
    FirstAboveSmallest(top, above);
    var r := FirstAbove(top, above);
    if r.Some? {
      forall g | IsTop(own, g) && g > above
        ensures r.value <= g
      {
        var k :| 0 <= k < |top| && top[k] == g;
      }
    } else {
      forall f | IsTop(own, f)
        ensures f <= above
      {
        var k :| 0 <= k < |top| && top[k] == f;
      }
    }
    if forall f :: IsTop(own, f) ==> f <= above {
      assert forall i :: 0 <= i < |top| ==> top[i] <= above by {
        forall i | 0 <= i < |top|
          ensures top[i] <= above
        {
          assert top[i] in top;
        }
      }
    }
  }

  /**
   * What `inform_bid` returns: an opening on the smallest top face; else the first
   * top face above the current face at the same quantity; else "liar" at the full
   * quantity, or a raised quantity on the smallest top face.
   */
  function Informed(s: Strategy, current: Option<Bid>, total: int, own: seq<int>, d: Draws): (a: Action)
    requires current.Some? ==> InBounds(current.value, total)
    ensures current.None? ==> a.Propose? && OpeningRange(total, a.bid.quantity) && IsFace(a.bid.face)
    ensures current.Some? ==>
              (a.Liar? <==> current.value.quantity == total && FirstAbove(TopFacesOf(own), current.value.face).None?)
    ensures current.Some? && a.Propose? ==> Outbids(a.bid, current.value) && InBounds(a.bid, total)
  {
    var top := TopFacesOf(own);
    assert top[0] in top;
    match current
    case None => Propose(Bid(OpeningQuantity(total, d.quantity), top[0]))
    case Some(b) =>
      match FirstAbove(top, b.face)
      case Some(f) =>
        assert IsTop(own, f);
        Propose(Bid(b.quantity, f))
      case None =>
        if b.quantity == total then Liar
        else Propose(Bid(IncreaseQuantity(s, b.quantity, total, d.quantity), top[0]))
  }

  /** The faces `inform_bid` picks, stated through the top faces of the own dice. */
  lemma InformedFaces(s: Strategy, current: Option<Bid>, total: int, own: seq<int>, d: Draws)
    requires current.Some? ==> InBounds(current.value, total)
    ensures var a := Informed(s, current, total, own, d);
            current.None? ==> SmallestTopAbove(own, a.bid.face, 0)
    ensures var a := Informed(s, current, total, own, d);
            current.Some? ==>
              (a.Liar? <==> current.value.quantity == total && forall f :: IsTop(own, f) ==> f <= current.value.face)
    ensures var a := Informed(s, current, total, own, d);
            current.Some? && (exists f :: IsTop(own, f) && f > current.value.face) ==>
              a.Propose? && a.bid.quantity == current.value.quantity &&
              SmallestTopAbove(own, a.bid.face, current.value.face)
    ensures var a := Informed(s, current, total, own, d);
            current.Some? && (forall f :: IsTop(own, f) ==> f <= current.value.face) && a.Propose? ==>
              SmallestTopAbove(own, a.bid.face, 0) && current.value.quantity < a.bid.quantity &&
              (s.conservativeIncrease ==> a.bid.quantity == current.value.quantity + 1)
  {
    var top := TopFacesOf(own);
    FirstTopAbove(own, 0);
    assert top[0] > 0 && top[0] in top;
    assert FirstAbove(top, 0) == Some(top[0]);
    if current.Some? {
      FirstTopAbove(own, current.value.face);
    }
  }

  /** The `for face in top_faces` loop of `inform_bid`: the first top face above `above`. */
  method ScanTopFaces(top: seq<int>, above: int) returns (next: Option<int>)
    ensures next == FirstAbove(top, above)
  {
    for i := 0 to |top|
      invariant FirstAbove(top, above) == FirstAbove(top[i..], above)
    {
      assert top[i..] == [top[i]] + top[i + 1..];
      if top[i] > above {
        return Some(top[i]);
      }
    }
    return None;
  }

  /** `inform_bid`. */
  method InformBid(s: Strategy, current: Option<Bid>, total: int, own: seq<int>, d: Draws) returns (a: Action)
    requires current.Some? ==> InBounds(current.value, total)
    ensures a == Informed(s, current, total, own, d)
  {
    var prefs := PreferredFaces(own);
    var top := TopFaces(prefs);
    TopFacesMatch(own, prefs);
    if current.None? {
      return Propose(Bid(OpeningQuantity(total, d.quantity), top[0]));
    }
    var b := current.value;
    var next := ScanTopFaces(top, b.face);
    if next.Some? {
      return Propose(Bid(b.quantity, next.value));
    }
    if b.quantity == total {
      return Liar;
    }
    var q := IncreaseQuantity(s, b.quantity, total, d.quantity);
    a := Propose(Bid(q, top[0]));
  }

  /** The current bid leaves this strategy no escalation, so it is forced to call "liar". */
  ghost predicate Exhausted(s: Strategy, b: Bid, total: int, own: seq<int>) {
    b.quantity == total && (if s.preferBid then forall f :: IsTop(own, f) ==> f <= b.face else b.face == 6)
  }

  /** `new_bid`: the informed escalation if `prefer_bid`, else the random one. */
  method NewBid(s: Strategy, current: Option<Bid>, total: int, own: seq<int>, d: Draws) returns (a: Action)
    requires current.Some? ==> InBounds(current.value, total)
    ensures current.None? ==> a.Propose? && OpeningRange(total, a.bid.quantity) && IsFace(a.bid.face)
    ensures current.Some? ==> (a.Liar? <==> Exhausted(s, current.value, total, own))
    ensures current.Some? && a.Propose? ==> Outbids(a.bid, current.value) && InBounds(a.bid, total)
    ensures a == if s.preferBid then Informed(s, current, total, own, d) else RandomBid(s, current, total, d)
  {
    if s.preferBid {
      a := InformBid(s, current, total, own, d);
      if current.Some? {
        FirstTopAbove(own, current.value.face);
      }
    } else {
      a := RandomBid(s, current, total, d);
    }
  }

  /** The coin of `random.choice(["bid", "liar"])` came up "liar". */
  predicate CoinSaysLiar(coin: nat) {
    Choice(["bid", "liar"], coin) == "liar"
  }

  /**
   * `liar_decide` (true means "liar"): a coin flip; Normal challenges a claim of
   * more than half the dice; Optimal challenges a claim above the own effective
   * count plus half the other players' dice.
   */
  function LiarDecide(s: Strategy, b: Bid, total: int, own: seq<int>, d: Draws): (liar: bool)
    ensures s.liarThreshold == Random ==> (liar <==> d.coin % 2 == 1)
    ensures s.liarThreshold == Normal ==> (liar <==> 2 * b.quantity > total)
    ensures s.liarThreshold == Optimal ==>
              (liar <==> b.quantity as real > EffectiveCount(own, b.face) as real + (total - |own|) as real * 0.5)
  {
    match s.liarThreshold
    case Random => CoinSaysLiar(d.coin)
    case Normal => b.quantity > total / 2
    case Optimal => 2 * b.quantity > 2 * EffectiveCount(own, b.face) + (total - |own|)
  }

  /** The documented Normal and Optimal decisions for 20 dice and own dice [1, 3, 3, 6]. */
  lemma LiarDecideExamples(d: Draws)
    ensures var own := [1, 3, 3, 6];
            && !LiarDecide(Strategy(false, Normal, false), Bid(5, 3), 20, own, d)
            && LiarDecide(Strategy(false, Normal, false), Bid(11, 3), 20, own, d)
            && !LiarDecide(Strategy(false, Optimal, false), Bid(5, 3), 20, own, d)
            && !LiarDecide(Strategy(false, Optimal, false), Bid(11, 3), 20, own, d)
            && LiarDecide(Strategy(false, Optimal, false), Bid(15, 6), 20, own, d)
  {
    var own := [1, 3, 3, 6];
    assert Count(own, 1) == 1 && Count(own, 3) == 2 && Count(own, 6) == 1;
  }

  /**
   * `make_action`: with no current bid a bid is mandatory; otherwise "liar" when
   * the challenge decision says so or escalation is exhausted, else the new bid.
   */
  method MakeAction(s: Strategy, current: Option<Bid>, total: int, own: seq<int>, d: Draws) returns (a: Action)
    requires current.Some? ==> InBounds(current.value, total)
    ensures current.None? ==> a.Propose? && OpeningRange(total, a.bid.quantity) && IsFace(a.bid.face)
    ensures current.Some? ==>
              (a.Liar? <==> LiarDecide(s, current.value, total, own, d) || Exhausted(s, current.value, total, own))
    ensures current.Some? && a.Propose? ==> Outbids(a.bid, current.value) && InBounds(a.bid, total)
    ensures total >= 1 && a.Propose? ==> InBounds(a.bid, total)
    ensures current.None? || !LiarDecide(s, current.value, total, own, d) ==>
              a == if s.preferBid then Informed(s, current, total, own, d) else RandomBid(s, current, total, d)
  {
    if current.None? {
      a := NewBid(s, current, total, own, d);
      return;
    }
    var liar := LiarDecide(s, current.value, total, own, d);
    if liar {
      a := Liar;
    } else {
      a := NewBid(s, current, total, own, d);
    }
  }
}
