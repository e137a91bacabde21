/**
 * The value-level rules of server/game/GameManager.js: the deal pattern,
 * the bid options with the dealer's forbidden value, the order of bidding,
 * the re-basing of seat pointers after a removal, the round-robin deal,
 * trick and game winners, and round scoring. Seats are PlayerView snapshots
 * in seating order.
 */
module Rules {
  import opened Wrappers
  import opened Seqs
  import opened Deck
  import opened Players
  import opened Arith

  // ----- Deal pattern -----

  const PatronCartas: seq<nat> := [1, 3, 5, 7, 5, 3, 1]

  /** getCantidadCartasPorRonda: before the first round (ronda 0) the lookup
      `patronCartas[-1]` is undefined, modelled as None. */
  function CardsForRound(ronda: nat): (r: Option<nat>)
    ensures r.None? <==> ronda == 0
    ensures r.Some? ==> r.value in {1, 3, 5, 7}
    ensures r.Some? ==> r.value * 5 <= 35
  {
    if ronda == 0 then None else Some(PatronCartas[(ronda - 1) % |PatronCartas|])
  }

  /** The pattern repeats every seven rounds and is symmetric around round 4. */
  lemma PatternPeriodic(ronda: nat)
    requires ronda >= 1
    ensures CardsForRound(ronda + 7) == CardsForRound(ronda)
    ensures ronda <= 7 ==> CardsForRound(ronda) == CardsForRound(8 - ronda)
  {
    assert (ronda + 7 - 1) % 7 == (ronda - 1) % 7;
  }

  /** The number of cards the deal loop runs for: 0 when the pattern lookup is undefined. */
  function CardsToDeal(ronda: nat): nat {
    match CardsForRound(ronda)
    case None => 0
    case Some(c) => c
  }

  // ----- Bidding -----

  function BidOr0(v: PlayerView): int {
    match v.prediccion
    case None => 0
    case Some(b) => b
  }

  /** getSumaPredicciones: the sum of the predictions that are set. */
  function SumBids(seats: seq<PlayerView>): (r: int)
    ensures (forall k :: 0 <= k < |seats| ==> seats[k].prediccion.None?) ==> r == 0
    ensures (forall k :: 0 <= k < |seats| && seats[k].prediccion.Some? ==> seats[k].prediccion.value >= 0) ==> r >= 0
  {
    if seats == [] then 0 else BidOr0(seats[0]) + SumBids(seats[1..])
  }

  /** The sum of the set predictions of every seat whose id is not `id`. */
  function OthersBidSum(seats: seq<PlayerView>, id: string): int {
    if seats == [] then 0
    else (if seats[0].id != id then BidOr0(seats[0]) else 0) + OthersBidSum(seats[1..], id)
  }

  /** The caller is the one to bid now and the bidding pointer is on the dealer. */
  predicate IsLastBidder(seats: seq<PlayerView>, turn: int, dealer: int, id: string) {
    turn == dealer && 0 <= turn < |seats| && seats[turn].id == id
  }

  predicate Increasing(s: seq<int>) {
    forall i, j :: 0 <= i < j < |s| ==> s[i] < s[j]
  }

  /** `Array.from({length: n}, (_, i) => i)`. */
  function Range(n: nat): (r: seq<int>)
    ensures |r| == n && forall i :: 0 <= i < n ==> r[i] == i
    ensures Increasing(r)
    ensures forall v :: v in r <==> 0 <= v < n
  {
    if n == 0 then [] else Range(n - 1) + [n - 1]
  }

  /** `filter(v => v !== x)`. */
  function Without(s: seq<int>, x: int): (r: seq<int>)
    ensures forall v :: v in r <==> v in s && v != x
    ensures Increasing(s) ==> Increasing(r)
  {
    if s == [] then []
    else
      var tail := Without(s[1..], x);
      assert Increasing(s) ==> forall j :: 0 <= j < |tail| ==> s[0] < tail[j] by {
        if Increasing(s) {
          forall j | 0 <= j < |tail| ensures s[0] < tail[j] {
            assert tail[j] in tail;
            var i :| 0 <= i < |s[1..]| && s[1..][i] == tail[j];
            assert s[i + 1] == tail[j];
          }
        }
      }
      if s[0] == x then tail else [s[0]] + tail
  }

  /** opcionesValidasPrediccion: 0..total in ascending order, less the value
      that would make the predictions add up to `total` when the caller is
      the dealer bidding last; nothing at all before the first round. */
  function ValidBidOptions(total: Option<nat>, seats: seq<PlayerView>, turn: int, dealer: int, id: string): (r: seq<int>)
    ensures Increasing(r)
    ensures forall v :: v in r <==>
      total.Some? && 0 <= v <= total.value
      && !(IsLastBidder(seats, turn, dealer, id) && v == total.value - OthersBidSum(seats, id))
  {
    var opts := if total.None? then [] else Range(total.value + 1);
    if !IsLastBidder(seats, turn, dealer, id) then opts
    else Without(opts, (if total.None? then 0 else total.value) - OthersBidSum(seats, id))
  }

  /** When nobody but the caller has the caller's id, the caller's own prediction
      is the only difference between the full sum and the sum of the others. */
  lemma {:induction false} OthersWhenAbsent(seats: seq<PlayerView>, id: string)
    requires forall i :: 0 <= i < |seats| ==> seats[i].id != id
    ensures OthersBidSum(seats, id) == SumBids(seats)
  {
    if seats != [] {
      OthersWhenAbsent(seats[1..], id);
    }
  }

  lemma {:induction false} SumAfterBid(seats: seq<PlayerView>, k: int, v: int)
    requires 0 <= k < |seats|
    requires forall i :: 0 <= i < |seats| && i != k ==> seats[i].id != seats[k].id
    ensures SumBids(seats[k := seats[k].(prediccion := Some(v))]) == OthersBidSum(seats, seats[k].id) + v
  {
    var after := seats[k := seats[k].(prediccion := Some(v))];
    if k == 0 {
      assert after[1..] == seats[1..];
      OthersWhenAbsent(seats[1..], seats[0].id);
    } else {
      assert after[1..] == seats[1..][k - 1 := seats[k].(prediccion := Some(v))];
      SumAfterBid(seats[1..], k - 1, v);
    }
  }

  /** The forbidden-bid rule: an option the dealer may choose never makes the
      predictions of the table add up to the number of cards dealt. */
  lemma DealerBidNeverCompletesTotal(total: nat, seats: seq<PlayerView>, turn: int, dealer: int, id: string, v: int)
    requires IsLastBidder(seats, turn, dealer, id)
    requires forall i :: 0 <= i < |seats| && i != turn ==> seats[i].id != id
    requires v in ValidBidOptions(Some(total), seats, turn, dealer, id)
    ensures SumBids(seats[turn := seats[turn].(prediccion := Some(v))]) != total
  {
    SumAfterBid(seats, turn, v);
  }

  /** A caller other than the last bidder may choose any of 0..total; the
      dealer has exactly one value fewer whenever the forbidden value is in range. */
  lemma OptionsCount(total: nat, seats: seq<PlayerView>, turn: int, dealer: int, id: string)
    ensures var r := ValidBidOptions(Some(total), seats, turn, dealer, id);
      |r| == if IsLastBidder(seats, turn, dealer, id) && 0 <= total - OthersBidSum(seats, id) <= total
             then total else total + 1
  {
    if IsLastBidder(seats, turn, dealer, id) {
      WithoutLength(Range(total + 1), total - OthersBidSum(seats, id));
    }
  }

  lemma {:induction false} WithoutLength(s: seq<int>, x: int)
    requires Increasing(s)
    ensures |Without(s, x)| == if x in s then |s| - 1 else |s|
  {
    if s != [] {
      assert Increasing(s[1..]);
      WithoutLength(s[1..], x);
      if s[0] == x {
        assert x !in s[1..];
      } else {
        assert x in s <==> x in s[1..];
      }
    }
  }

  /** iniciarRonda: bidding opens one seat before the dealer. */
  function StartingBidder(dealer: int, n: nat): (r: int)
    ensures n > 0 ==> 0 <= r < n
    ensures n == 0 ==> r == 0
  {
    if n > 0 then (dealer - 1 + n) % n else 0
  }

  /** registrarPrediccion: the pointer moves one seat backwards. */
  function PreviousSeat(t: int, n: nat): (r: int)
    requires n > 0
    ensures 0 <= r < n
  {
    (t - 1 + n) % n
  }

  /** prepararSiguienteRonda: the dealer moves one seat forwards. */
  function NextSeat(t: int, n: nat): (r: int)
    requires n > 0
    ensures 0 <= r < n
  {
    (t + 1) % n
  }

  /** The seat asked to bid after k accepted non-dealer bids. */
  function BidderAfter(dealer: int, n: nat, k: nat): int
    requires n > 0
  {
    if k == 0 then StartingBidder(dealer, n) else PreviousSeat(BidderAfter(dealer, n, k - 1), n)
  }

  lemma {:induction false} BidderAfterIs(dealer: int, n: nat, k: nat)
    requires 0 <= dealer < n
    ensures BidderAfter(dealer, n, k) == (dealer - 1 - k) % n
  {
    if k == 0 {
      if dealer >= 1 {
        DivModUnique(dealer - 1 + n, n, 1, dealer - 1);
        DivModUnique(dealer - 1, n, 0, dealer - 1);
      } else {
        DivModUnique(dealer - 1 + n, n, 0, n - 1);
        DivModUnique(dealer - 1, n, -1, n - 1);
      }
    } else {
      var prev := BidderAfter(dealer, n, k - 1);
      BidderAfterIs(dealer, n, k - 1);
      assert BidderAfter(dealer, n, k) == (prev - 1 + n) % n;
      ModShift(dealer - 1 - (k - 1), n);
    }
  }

  /** Bidding runs backwards through the seats from the one before the dealer:
      the n bidders are n different seats and the dealer is the n-th. */
  lemma DealerBidsLast(dealer: int, n: nat)
    requires 0 <= dealer < n
    ensures BidderAfter(dealer, n, n - 1) == dealer
    ensures forall k :: 0 <= k < n - 1 ==> BidderAfter(dealer, n, k) != dealer
    ensures forall k1, k2 :: 0 <= k1 < k2 < n ==> BidderAfter(dealer, n, k1) != BidderAfter(dealer, n, k2)
  {
    BidderAfterIs(dealer, n, n - 1);
    DivModUnique(dealer - 1 - (n - 1), n, -1, dealer);
    forall k | 0 <= k < n - 1 ensures BidderAfter(dealer, n, k) != dealer {
      BidderAfterIs(dealer, n, k);
      ModDistinct(dealer - 1 - (n - 1), dealer - 1 - k, n);
    }
    forall k1, k2 | 0 <= k1 < k2 < n
      ensures BidderAfter(dealer, n, k1) != BidderAfter(dealer, n, k2)
    {
      BidderAfterIs(dealer, n, k1);
      BidderAfterIs(dealer, n, k2);
      ModDistinct(dealer - 1 - k2, dealer - 1 - k1, n);
    }
  }

  // ----- Dealing -----

  /** Hands and the deck that is left. */
  datatype Table = Table(hands: seq<seq<Card>>, rest: seq<Card>)

  function EmptyHands(n: nat): (r: seq<seq<Card>>)
    ensures |r| == n && forall k :: 0 <= k < n ==> r[k] == []
  {
    seq(n, _ => [])
  }

  /** The inner deal loop after serving seats 0..j-1: each served seat
      popped the last card of the deck while one was left. */
  function PartialPass(hands: seq<seq<Card>>, deck: seq<Card>, j: nat): (t: Table)
    requires j <= |hands|
    ensures |t.hands| == |hands|
  {
    var m := if j <= |deck| then j else |deck|;
    Table(
      seq(|hands|, k requires 0 <= k < |hands| =>
        if k < m then hands[k] + [deck[|deck| - 1 - k]] else hands[k]),
      deck[..|deck| - m])
  }

  /** One pass of the inner deal loop over every seat. */
  function DealPass(hands: seq<seq<Card>>, deck: seq<Card>): (t: Table)
    ensures |t.hands| == |hands|
  {
    PartialPass(hands, deck, |hands|)
  }

  /** The deal loop: p passes round the table. */
  function DealAll(hands: seq<seq<Card>>, deck: seq<Card>, p: nat): (r: Table)
    ensures |r.hands| == |hands|
    decreases p
  {
    if p == 0 then Table(hands, deck)
    else
      var t := DealPass(hands, deck);
      DealAll(t.hands, t.rest, p - 1)
  }

  /** The cards seat k of n receives in p passes: the k-th card from the end
      of the deck, then the same again from the deck without its last n cards. */
  function Column(deck: seq<Card>, n: nat, k: nat, p: nat): (r: seq<Card>)
    requires k < n
    decreases p
  {
    if p == 0 || |deck| < n then []
    else [deck[|deck| - 1 - k]] + Column(deck[..|deck| - n], n, k, p - 1)
  }

  /** When p passes fit in the deck the column has p cards. */
  lemma {:induction false} ColumnLength(deck: seq<Card>, n: nat, k: nat, p: nat)
    requires k < n && p * n <= |deck|
    ensures |Column(deck, n, k, p)| == p
    decreases p
  {
    if p > 0 {
      MulPred(p, n);
      MulMono(1, p, n);
      ColumnLength(deck[..|deck| - n], n, k, p - 1);
    }
  }

  /** When p passes fit in the deck, seat k's q-th card is the one popped at
      step q*n + k, counted from the end of the deck. */
  lemma {:induction false} ColumnAt(deck: seq<Card>, n: nat, k: nat, p: nat, q: nat)
    requires k < n && p * n <= |deck| && q < p
    ensures |Column(deck, n, k, p)| == p
    ensures 0 <= q * n + k < |deck|
    ensures Column(deck, n, k, p)[q] == deck[|deck| - 1 - (q * n + k)]
    decreases p
  {
    ColumnLength(deck, n, k, p);
    SlotBound(n, p, q, k);
    if q > 0 {
      MulPred(p, n);
      MulMono(1, p, n);
      ColumnAt(deck[..|deck| - n], n, k, p - 1, q - 1);
      MulPred(q, n);
    }
  }

  /** Seat j takes the last card of the deck, if there is one. */
  function ServeStep(t: Table, j: nat): (r: Table)
    requires j < |t.hands|
    ensures |r.hands| == |t.hands|
  {
    if t.rest == [] then t
    else Table(t.hands[j := t.hands[j] + [t.rest[|t.rest| - 1]]], t.rest[..|t.rest| - 1])
  }

  /** Serving seat j takes the last card left after seats 0..j-1, if any. */
  lemma PartialPassStep(hands: seq<seq<Card>>, deck: seq<Card>, j: nat)
    requires j < |hands|
    ensures PartialPass(hands, deck, j + 1) == ServeStep(PartialPass(hands, deck, j), j)
  {
    var t := PartialPass(hands, deck, j);
    var t1 := PartialPass(hands, deck, j + 1);
    if j < |deck| {
      assert t.rest[|t.rest| - 1] == deck[|deck| - 1 - j];
      var h := t.hands[j := t.hands[j] + [deck[|deck| - 1 - j]]];
      forall k | 0 <= k < |hands| ensures t1.hands[k] == h[k] { }
    } else {
      forall k | 0 <= k < |hands| ensures t1.hands[k] == t.hands[k] { }
    }
  }

  /** A whole pass over a deck with a card for every seat. */
  lemma PassFacts(hands: seq<seq<Card>>, deck: seq<Card>)
    requires |hands| <= |deck|
    ensures DealPass(hands, deck).rest == deck[..|deck| - |hands|]
    ensures forall k :: 0 <= k < |hands| ==>
      DealPass(hands, deck).hands[k] == hands[k] + [deck[|deck| - 1 - k]]
  {
  }

  /** p passes over a deck with a card for every slot take its last p*n cards. */
  lemma {:induction false} DealAllRest(hands: seq<seq<Card>>, deck: seq<Card>, p: nat)
    requires p * |hands| <= |deck|
    ensures DealAll(hands, deck, p).rest == deck[..|deck| - p * |hands|]
    decreases p
  {
    var n := |hands|;
    if p == 0 {
      assert deck[..|deck|] == deck;
    } else {
      MulPred(p, n);
      MulMono(1, p, n);
      PassFacts(hands, deck);
      var t := DealPass(hands, deck);
      DealAllRest(t.hands, t.rest, p - 1);
      PrefixOfPrefix(deck, |deck| - p * n, |deck| - n);
    }
  }

  /** The sizes after one pass when p passes fit in the deck. */
  lemma PassSizes(hands: seq<seq<Card>>, deck: seq<Card>, p: nat)
    requires 1 <= p && p * |hands| <= |deck|
    ensures |hands| <= |deck|
    ensures var t := DealPass(hands, deck);
      |t.hands| == |hands| && t.rest == deck[..|deck| - |hands|]
      && (p - 1) * |t.hands| <= |t.rest|
  {
    MulPred(p, |hands|);
    MulMono(1, p, |hands|);
  }

  /** Seat k's hand after one pass over a deck with a card for every seat. */
  lemma PassSeat(hands: seq<seq<Card>>, deck: seq<Card>, k: nat)
    requires |hands| <= |deck| && k < |hands|
    ensures DealPass(hands, deck).hands[k] == hands[k] + [deck[|deck| - 1 - k]]
  {
  }

  /** One pass then p - 1 more: what seat k holds after the rest of the deal
      extends what the first pass gave it. */
  lemma DealAllStep(hands: seq<seq<Card>>, deck: seq<Card>, p: nat, k: nat, rest: seq<Card>)
    requires 1 <= p && |hands| <= |deck| && k < |hands|
    requires var t := DealPass(hands, deck);
      DealAll(t.hands, t.rest, p - 1).hands[k] == t.hands[k] + rest
    ensures DealAll(hands, deck, p).hands[k] == hands[k] + ([deck[|deck| - 1 - k]] + rest)
  {
    PassSeat(hands, deck, k);
    var x := deck[|deck| - 1 - k];
    assert (hands[k] + [x]) + rest == hands[k] + ([x] + rest);
  }

  /** Closed form of the deal when the deck is big enough: seat k's hand gains
      Column(deck, n, k, p). */
  lemma {:induction false} DealAllExact(hands: seq<seq<Card>>, deck: seq<Card>, p: nat, k: nat)
    requires p * |hands| <= |deck| && k < |hands|
    ensures DealAll(hands, deck, p).hands[k] == hands[k] + Column(deck, |hands|, k, p)
    decreases p
  {
    if p == 0 {
      assert Column(deck, |hands|, k, p) == [];
    } else {
      PassSizes(hands, deck, p);
      var t := DealPass(hands, deck);
      DealAllExact(t.hands, t.rest, p - 1, k);
      DealAllStep(hands, deck, p, k, Column(t.rest, |hands|, k, p - 1));
    }
  }

  lemma ColumnsDisjoint(deck: seq<Card>, n: nat, p: nat, k1: nat, q1: nat, k2: nat, q2: nat)
    requires Distinct(deck) && p * n <= |deck|
    requires k1 < n && k2 < n && q1 < p && q2 < p && (k1 != k2 || q1 != q2)
    ensures |Column(deck, n, k1, p)| == p && |Column(deck, n, k2, p)| == p
    ensures Column(deck, n, k1, p)[q1] != Column(deck, n, k2, p)[q2]
  {
    ColumnAt(deck, n, k1, p, q1);
    ColumnAt(deck, n, k2, p, q2);
    if q1 * n + k1 == q2 * n + k2 {
      SlotInjective(n, q1, k1, q2, k2);
    }
  }

  /** Dealt to empty hands, seat k holds exactly its column. */
  lemma DealtColumn(deck: seq<Card>, n: nat, p: nat, k: nat)
    requires p * n <= |deck| && k < n
    ensures DealAll(EmptyHands(n), deck, p).hands[k] == Column(deck, n, k, p)
  {
    DealAllExact(EmptyHands(n), deck, p, k);
    assert [] + Column(deck, n, k, p) == Column(deck, n, k, p);
  }

  /** Dealt to empty hands, seat k holds p cards, and two different slots
      hold different cards of a deck without repeats. */
  lemma DealtSlots(deck: seq<Card>, n: nat, p: nat, k1: nat, q1: nat, k2: nat, q2: nat)
    requires Distinct(deck) && p * n <= |deck|
    requires k1 < n && k2 < n && q1 < p && q2 < p && (k1 != k2 || q1 != q2)
    ensures var t := DealAll(EmptyHands(n), deck, p);
      |t.hands[k1]| == p && |t.hands[k2]| == p && t.hands[k1][q1] != t.hands[k2][q2]
  {
    DealtColumn(deck, n, p, k1);
    DealtColumn(deck, n, p, k2);
    ColumnsDisjoint(deck, n, p, k1, q1, k2, q2);
  }

  /** From a deck without repeats, starting from empty hands: every seat gets
      exactly p cards, no card goes to two places, and p*n cards leave the deck. */
  lemma DealtCardsDistinct(deck: seq<Card>, n: nat, p: nat)
    requires Distinct(deck) && p * n <= |deck|
    ensures var t := DealAll(EmptyHands(n), deck, p);
      && |t.hands| == n
      && (forall k :: 0 <= k < n ==> |t.hands[k]| == p)
      && (forall k1, q1, k2, q2 ::
            (0 <= k1 < n && 0 <= k2 < n && 0 <= q1 < p && 0 <= q2 < p && (k1 != k2 || q1 != q2))
            ==> t.hands[k1][q1] != t.hands[k2][q2])
      && |t.rest| == |deck| - p * n
  {
    DealAllRest(EmptyHands(n), deck, p);
    var t := DealAll(EmptyHands(n), deck, p);
    forall k | 0 <= k < n ensures |t.hands[k]| == p {
      DealtColumn(deck, n, p, k);
      ColumnLength(deck, n, k, p);
    }
    forall k1, q1, k2, q2 |
        0 <= k1 < n && 0 <= k2 < n && 0 <= q1 < p && 0 <= q2 < p && (k1 != k2 || q1 != q2)
      ensures t.hands[k1][q1] != t.hands[k2][q2]
    {
      DealtSlots(deck, n, p, k1, q1, k2, q2);
    }
  }

  /** The deal of a round, as iniciarRonda does it: a fresh deck shuffled with
      `draws`, then CardsToDeal(ronda) passes round n empty hands. */
  function RoundDeal(n: nat, ronda: nat, draws: seq<int>): Table
    requires ValidDraws(draws, 40)
  {
    DealAll(EmptyHands(n), Shuffle(Baraja(), draws), CardsToDeal(ronda))
  }

  /** When the round's cards for every seat fit in the deck, the deal is
      complete: each seat gets the round's pattern number of cards, all
      distinct, and the deck keeps the rest. */
  lemma RoundDealFits(n: nat, ronda: nat, draws: seq<int>)
    requires CardsToDeal(ronda) * n <= 40 && ronda >= 1 && ValidDraws(draws, 40)
    ensures var c := CardsToDeal(ronda); var t := RoundDeal(n, ronda, draws);
      && c == PatronCartas[(ronda - 1) % 7]
      && |t.hands| == n
      && (forall k :: 0 <= k < n ==> |t.hands[k]| == c)
      && (forall k1, q1, k2, q2 ::
            (0 <= k1 < n && 0 <= k2 < n && 0 <= q1 < c && 0 <= q2 < c && (k1 != k2 || q1 != q2))
            ==> t.hands[k1][q1] != t.hands[k2][q2])
      && |t.rest| == 40 - c * n
  {
    var c := CardsToDeal(ronda);
    var deck := Shuffle(Baraja(), draws);
    BarajaDistinct();
    FisherYatesPermutes(Baraja(), draws, 39);
    DealtCardsDistinct(deck, n, c);
  }

  /** Up to five seats, every round of the pattern fits in the 40-card deck. */
  lemma FiveSeatsFit(n: nat, ronda: nat)
    requires n <= 5 && ronda >= 1
    ensures CardsToDeal(ronda) * n <= 40
  {
    MulMono(n, 5, CardsToDeal(ronda));
  }

  // ----- Tricks and winners -----

  /** k is the first position holding the largest value. */
  predicate IsFirstMax(xs: seq<int>, k: int) {
    0 <= k < |xs|
    && (forall i :: 0 <= i < |xs| ==> xs[i] <= xs[k])
    && (forall i :: 0 <= i < k ==> xs[i] < xs[k])
  }

  /** Two positions that are both the first maximum are the same position. */
  lemma FirstMaxUnique(xs: seq<int>, a: int, b: int)
    requires IsFirstMax(xs, a) && IsFirstMax(xs, b)
    ensures a == b
  {
    assert xs[a] <= xs[b] && xs[b] <= xs[a];
  }

  /** The forEach of evaluarMano over the played ranks: strict `>` against a
      running maximum that starts at -1. */
  method TrickWinner(ranks: seq<int>) returns (w: Option<nat>)
    ensures w.None? <==> forall i :: 0 <= i < |ranks| ==> ranks[i] <= -1
    ensures w.Some? ==> IsFirstMax(ranks, w.value)
  {
    var max := -1;
    w := None;
    for i := 0 to |ranks|
      invariant w.None? ==> max == -1 && forall k :: 0 <= k < i ==> ranks[k] <= -1
      invariant w.Some? ==> IsFirstMax(ranks[..i], w.value) && max == ranks[w.value] && max > -1
    {
      if ranks[i] > max {
        max := ranks[i];
        w := Some(i);
      }
    }
    assert ranks[..|ranks|] == ranks;
  }

  /** jugadorGanador's reduce: keeps the earlier player unless a later one
      has strictly more points. */
  function MaxFrom(xs: seq<int>, acc: nat, i: nat): (r: nat)
    requires acc < i <= |xs| && IsFirstMax(xs[..i], acc)
    ensures IsFirstMax(xs, r)
    decreases |xs| - i
  {
    if i == |xs| then
      assert xs[..i] == xs;
      acc
    else
      var next := if xs[i] > xs[acc] then i else acc;
      assert xs[..i + 1][..i] == xs[..i];
      MaxFrom(xs, next, i + 1)
  }

  /** The index of the best score, ties going to the earlier seat. */
  function BestIndex(xs: seq<int>): (r: nat)
    requires |xs| > 0
    ensures IsFirstMax(xs, r)
  {
    MaxFrom(xs, 0, 1)
  }

  function Points(seats: seq<PlayerView>): (r: seq<int>)
    ensures |r| == |seats| && forall k :: 0 <= k < |seats| ==> r[k] == seats[k].puntos
  {
    seq(|seats|, k requires 0 <= k < |seats| => seats[k].puntos)
  }

  // ----- Scoring -----

  /** Points a player earns at round end: 5 plus the tricks won when the
      prediction was exactly right, nothing otherwise. */
  function RoundDelta(v: PlayerView): (r: nat)
    ensures r > 0 <==> v.prediccion == Some(v.manosGanadas as int)
    ensures r > 0 ==> r == 5 + v.manosGanadas
  {
    if v.prediccion == Some(v.manosGanadas as int) then 5 + v.manosGanadas else 0
  }

  function Scored(v: PlayerView): PlayerView {
    v.(puntos := v.puntos + RoundDelta(v))
  }

  /** One line of getResultadoMano. */
  datatype ResultRow = ResultRow(
    nombre: string, manosGanadas: nat, prediccion: Option<int>, acerto: bool, puntosGanados: nat)

  function ResultadoMano(seats: seq<PlayerView>): (r: seq<ResultRow>)
    ensures |r| == |seats|
  {
    seq(|seats|, k requires 0 <= k < |seats| =>
      var v := seats[k];
      var hit := v.prediccion == Some(v.manosGanadas as int);
      ResultRow(v.nombre, v.manosGanadas, v.prediccion, hit, if hit then 5 + v.manosGanadas else 0))
  }

  /** The report and the scoring agree: the reported gain is what evaluarPredicciones
      adds, it is positive exactly when the prediction was right, and scores
      never go down. */
  lemma ReportMatchesScoring(seats: seq<PlayerView>, k: int)
    requires 0 <= k < |seats|
    ensures Scored(seats[k]).puntos == seats[k].puntos + ResultadoMano(seats)[k].puntosGanados
    ensures ResultadoMano(seats)[k].acerto <==> ResultadoMano(seats)[k].puntosGanados > 0
    ensures ResultadoMano(seats)[k].acerto <==> seats[k].prediccion == Some(seats[k].manosGanadas as int)
    ensures Scored(seats[k]).puntos >= seats[k].puntos
  {
  }
}
