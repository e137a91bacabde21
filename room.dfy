/**
 * The room state machine of server/game/GameManager.js: class GameRoom with
 * its seats, round, dealer and turn pointers, deck and the trick on the
 * table, and the in-memory registry of rooms by code.
 */
module Rooms {
  import opened Wrappers
  import opened Seqs
  import opened Arith
  import opened Deck
  import opened Players
  import opened Rules

  /** One entry of `cartasEnJuego`: the player object and the card it played. */
  datatype Jugada = Jugada(jugador: Player, carta: Card)

  /** agregarJugador's answers 'Sala llena' and 'OK'. */
  datatype AddResult = SalaLlena | Ok

  /** `Number(cantidad)`: an integer, or anything else (NaN, a fraction). */
  datatype BidInput = IntBid(n: int) | NotInteger

  function Ranks(trick: seq<Jugada>): (r: seq<int>)
    ensures |r| == |trick| && forall k :: 0 <= k < |trick| ==> r[k] == trick[k].carta.numero
  {
    seq(|trick|, k requires 0 <= k < |trick| => trick[k].carta.numero)
  }

  function TrickIds(trick: seq<Jugada>): (r: seq<string>)
    ensures |r| == |trick| && forall k :: 0 <= k < |trick| ==> r[k] == trick[k].jugador.id
  {
    seq(|trick|, k requires 0 <= k < |trick| => trick[k].jugador.id)
  }

  /** evaluarPredicciones applied to every seat. */
  function ScoreAll(seats: seq<PlayerView>): (r: seq<PlayerView>)
    ensures |r| == |seats| && forall k :: 0 <= k < |seats| ==> r[k] == Scored(seats[k])
  {
    seq(|seats|, k requires 0 <= k < |seats| => Scored(seats[k]))
  }

  function IdsOf(ps: seq<Player>): (r: seq<string>)
    ensures |r| == |ps| && forall k :: 0 <= k < |ps| ==> r[k] == ps[k].id
  {
    seq(|ps|, k requires 0 <= k < |ps| => ps[k].id)
  }

  lemma IdsOfRemoveAt(ps: seq<Player>, i: nat)
    requires i < |ps|
    ensures IdsOf(RemoveAt(ps, i)) == RemoveAt(IdsOf(ps), i)
  {
    RemoveAtFacts(ps, i);
    RemoveAtFacts(IdsOf(ps), i);
  }

  /** A dealer or bidding pointer after seat `removed` left `m` seats behind:
      moved back one seat (cyclically) when the removal was at or before it,
      0 in a room left empty. A seat pointer stays a seat pointer. */
  function PointerAfterRemoval(p: nat, removed: nat, m: nat): (r: nat)
    ensures m > 0 && p <= m && removed <= m ==> r < m
    ensures m == 0 ==> r == 0
  {
    if m == 0 then 0 else if removed <= p then (p - 1 + m) % m else p
  }

  /** After a removal a re-based pointer names the same player as before, or
      the player before the removed one (cyclically) when the pointer was on
      the removed seat. */
  lemma RebasedSeat<T>(s: seq<T>, removed: nat, p: nat)
    requires removed < |s| && p < |s| && |s| > 1
    ensures PointerAfterRemoval(p, removed, |s| - 1) < |s| - 1
    ensures RemoveAt(s, removed)[PointerAfterRemoval(p, removed, |s| - 1)]
            == if p == removed then s[(p - 1 + |s|) % |s|] else s[p]
  {
    var m := |s| - 1;
    RemoveAtFacts(s, removed);
    if removed <= p {
      if p == 0 {
        DivModUnique(p - 1 + m, m, 0, m - 1);
        DivModUnique(p - 1 + |s|, |s|, 0, m);
      } else {
        DivModUnique(p - 1 + m, m, 1, p - 1);
        DivModUnique(p - 1 + |s|, |s|, 1, p - 1);
      }
    }
  }

  /** The dealer's accepted bid closes the bidding with a sum of predictions
      different from the round's card count. */
  lemma ClosingBid(seats: seq<PlayerView>, turn: nat, id: string, v: int, total: Option<nat>)
    requires turn < |seats| && seats[turn].id == id
    requires forall i, j :: 0 <= i < j < |seats| ==> seats[i].id != seats[j].id
    requires v in ValidBidOptions(total, seats, turn, turn, id)
    ensures total.Some?
    ensures SumBids(seats[turn := seats[turn].(prediccion := Some(v))]) != total.value
  {
    forall i | 0 <= i < |seats| && i != turn ensures seats[i].id != id {
      if i < turn {
        assert seats[i].id != seats[turn].id;
      } else {
        assert seats[turn].id != seats[i].id;
      }
    }
    DealerBidNeverCompletesTotal(total.value, seats, turn, turn, id, v);
  }

  /** `mezclar(crearBaraja())`. */
  method BarajaMezclada(draws: seq<int>) returns (d: seq<Card>)
    requires ValidDraws(draws, 40)
    ensures d == Shuffle(Baraja(), draws)
  {
    var nueva := CrearBaraja();
    var a := new Card[40](i requires 0 <= i < 40 => nueva[i]);
    assert a[..] == Baraja();
    a := Mezclar(a, draws);
    d := a[..];
  }

  function HandsOf(views: seq<PlayerView>): (r: seq<seq<Card>>)
    ensures |r| == |views| && forall k :: 0 <= k < |views| ==> r[k] == views[k].mano
  {
    seq(|views|, k requires 0 <= k < |views| => views[k].mano)
  }

  /** b is a with only the hands changed. */
  predicate SameButHands(a: seq<PlayerView>, b: seq<PlayerView>) {
    |a| == |b| && forall k :: 0 <= k < |a| ==> b[k] == a[k].(mano := b[k].mano)
  }

  lemma SameButHandsTrans(a: seq<PlayerView>, b: seq<PlayerView>, c: seq<PlayerView>)
    requires SameButHands(a, b) && SameButHands(b, c)
    ensures SameButHands(a, c)
  {
  }

  lemma HandsOfUpdate(s: seq<PlayerView>, j: nat, x: seq<Card>)
    requires j < |s|
    ensures HandsOf(s[j := s[j].(mano := x)]) == HandsOf(s)[j := x]
  {
  }

  /** Every seat of `after` is the reset seat of `before` holding its new hand. */
  predicate Redealt(before: seq<PlayerView>, after: seq<PlayerView>, hands: seq<seq<Card>>) {
    |before| == |after| == |hands|
    && forall k :: 0 <= k < |after| ==> after[k] == ResetView(before[k]).(mano := hands[k])
  }

  /** Dealing twice in a row: the second deal resets the seats again, so the
      first deal's hands leave no trace and only the second one counts. */
  lemma RedealtTwice(a: seq<PlayerView>, b: seq<PlayerView>, c: seq<PlayerView>,
                     h1: seq<seq<Card>>, h2: seq<seq<Card>>)
    requires Redealt(a, b, h1) && Redealt(b, c, h2)
    ensures Redealt(a, c, h2)
  {
    forall k | 0 <= k < |c| ensures c[k] == ResetView(a[k]).(mano := h2[k]) {
      assert ResetView(b[k]) == ResetView(a[k]);
    }
  }

  class GameRoom {
    const codigo: string
    const hostId: string
    const maxJugadores: int
    var jugadores: seq<Player>
    var turnoActual: nat
    var baraja: seq<Card>
    var cartasEnJuego: seq<Jugada>
    var ronda: nat
    var dealerIndex: nat
    var turnoPrediccionIndex: nat

    function Ids(): (r: seq<string>)
      reads this`jugadores
      ensures |r| == |jugadores| && forall k :: 0 <= k < |jugadores| ==> r[k] == jugadores[k].id
    {
      IdsOf(jugadores)
    }

    /** getJugadores: the seats' state in seating order. */
    function Seats(): (r: seq<PlayerView>)
      reads this`jugadores, jugadores
      ensures |r| == |jugadores| && forall k :: 0 <= k < |jugadores| ==> r[k] == jugadores[k].View()
    {
      var ps := jugadores;
      seq(|ps|, k requires 0 <= k < |ps| reads ps => ps[k].View())
    }

    /** The player objects that have a card on the table. */
    ghost function TrickPlayers(): set<Player>
      reads this`cartasEnJuego
    {
      set e | e in cartasEnJuego :: e.jugador
    }

    /** A seat index, or 0 when the room is empty. */
    predicate SeatOrZero(i: nat)
      reads this`jugadores
    {
      i < |jugadores| || i == 0
    }

    /** Seats are distinct objects with distinct ids and the dealer and
        bidding pointers name seats. */
    ghost predicate Valid()
      reads this`jugadores, this`dealerIndex, this`turnoPrediccionIndex
    {
      Distinct(jugadores) && Distinct(Ids())
      && SeatOrZero(dealerIndex) && SeatOrZero(turnoPrediccionIndex)
    }

    /** The room's state other than its seats. */
    ghost function Pointers(): (nat, nat, nat, nat, seq<Card>, seq<Jugada>)
      reads this
    {
      (ronda, dealerIndex, turnoPrediccionIndex, turnoActual, baraja, cartasEnJuego)
    }

    /** A new room holds only its host; no round has been played. */
    constructor (codigo: string, idHost: string, nombreHost: string, maxJugadores: int)
      ensures |jugadores| == 1 && Valid() && fresh(jugadores[0])
      ensures this.codigo == codigo && hostId == idHost && this.maxJugadores == maxJugadores
      ensures Seats() == [NewView(idHost, nombreHost)]
      ensures Pointers() == (0, 0, 0, 0, [], [])
    {
      this.codigo := codigo;
      var host := new Player(idHost, nombreHost);
      jugadores := [host];
      hostId := idHost;
      this.maxJugadores := maxJugadores;
      turnoActual := 0;
      baraja := [];
      cartasEnJuego := [];
      ronda := 0;
      dealerIndex := 0;
      turnoPrediccionIndex := 0;
    }

    // ----- Seats -----

    /** A full room refuses; a seated id changes nothing; anyone else gets a
        fresh seat at the end. */
    method AgregarJugador(id: string, nombre: string) returns (r: AddResult)
      requires Valid()
      modifies this
      ensures Valid() && Pointers() == old(Pointers())
      ensures r == if old(|jugadores|) >= maxJugadores then SalaLlena else Ok
      ensures r == SalaLlena || id in old(Ids()) ==> jugadores == old(jugadores)
      ensures r == Ok && id !in old(Ids()) ==>
        && |jugadores| == old(|jugadores|) + 1
        && jugadores[..old(|jugadores|)] == old(jugadores)
        && fresh(jugadores[old(|jugadores|)])
        && Seats() == old(Seats()) + [NewView(id, nombre)]
      ensures |jugadores| > old(|jugadores|) ==> |jugadores| <= maxJugadores
    {
      if |jugadores| >= maxJugadores {
        return SalaLlena;
      }
      if id !in Ids() {
        var p := new Player(id, nombre);
        jugadores := jugadores + [p];
        assert Ids() == old(Ids()) + [id];
      }
      return Ok;
    }

    /** Removes the seat with this id, if any, and moves the dealer and
        bidding pointers back one seat when the removed seat was at or before
        them; turnoActual is left alone. */
    method EliminarJugador(id: string) returns (r: Option<Player>)
      requires Valid()
      modifies this
      ensures Valid()
      ensures (ronda, turnoActual, baraja, cartasEnJuego) == old((ronda, turnoActual, baraja, cartasEnJuego))
      ensures match IndexOf(old(Ids()), id)
        case None =>
          r == None && jugadores == old(jugadores)
          && dealerIndex == old(dealerIndex) && turnoPrediccionIndex == old(turnoPrediccionIndex)
        case Some(i) =>
          && r == Some(old(jugadores)[i])
          && jugadores == RemoveAt(old(jugadores), i)
          && dealerIndex == PointerAfterRemoval(old(dealerIndex), i, |jugadores|)
          && turnoPrediccionIndex == PointerAfterRemoval(old(turnoPrediccionIndex), i, |jugadores|)
    {
      var found := IndexOf(Ids(), id);
      if found.None? {
        return None;
      }
      var index := found.value;
      var eliminado := jugadores[index];
      RemoveAtDistinct(jugadores, index);
      RemoveAtDistinct(Ids(), index);
      IdsOfRemoveAt(jugadores, index);
      jugadores := RemoveAt(jugadores, index);
      var m := |jugadores|;
      dealerIndex := PointerAfterRemoval(dealerIndex, index, m);
      turnoPrediccionIndex := PointerAfterRemoval(turnoPrediccionIndex, index, m);
      return Some(eliminado);
    }

    /** The guard of iniciar_partida: the id that created the room. */
    predicate EsHost(id: string)
      reads this
      ensures EsHost(id) <==> id == hostId
    {
      hostId == id
    }

    // ----- Rounds -----

    /** What iniciarRonda leaves behind, given the seats it started from: the
        table cleared, bidding opened one seat before the dealer, every seat
        reset and dealt its part of RoundDeal, the deck holding the rest. */
    ghost predicate RoundOpened(before: seq<PlayerView>, deck: seq<Card>, c: nat)
      reads this, jugadores
    {
      var t := DealAll(EmptyHands(|jugadores|), deck, c);
      && |before| == |jugadores|
      && cartasEnJuego == [] && turnoActual == 0
      && turnoPrediccionIndex == StartingBidder(dealerIndex, |jugadores|)
      && baraja == t.rest
      && Redealt(before, Seats(), t.hands)
    }

    /** iniciarPartida: round 1 and its deal. No check that two players are seated. */
    method IniciarPartida(draws: seq<int>)
      requires Valid() && ValidDraws(draws, 40)
      modifies this, jugadores
      ensures Valid() && jugadores == old(jugadores)
      ensures ronda == 1 && dealerIndex == old(dealerIndex)
      ensures RoundOpened(old(Seats()), Shuffle(Baraja(), draws), CardsToDeal(ronda))
    {
      ghost var before := Seats();
      ronda := 1;
      assert Seats() == before;
      IniciarRonda(draws);
    }

    /** iniciarRonda: a freshly built and shuffled deck, the bidding pointer
        one seat before the dealer, every seat reset, then CardsToDeal(ronda)
        passes in which each seat in turn takes the deck's last card. */
    method IniciarRonda(draws: seq<int>)
      requires Valid() && ValidDraws(draws, 40)
      modifies this, jugadores
      ensures Valid() && jugadores == old(jugadores)
      ensures ronda == old(ronda) && dealerIndex == old(dealerIndex)
      ensures RoundOpened(old(Seats()), Shuffle(Baraja(), draws), CardsToDeal(ronda))
    {
      ghost var before := Seats();
      var mazo := BarajaMezclada(draws);
      assert Seats() == before && Valid();
      AbrirRonda(mazo);
    }

    /** iniciarRonda once the shuffled deck `mazo` is built. */
    method AbrirRonda(mazo: seq<Card>)
      requires Valid()
      modifies this, jugadores
      ensures Valid() && jugadores == old(jugadores)
      ensures ronda == old(ronda) && dealerIndex == old(dealerIndex)
      ensures RoundOpened(old(Seats()), mazo, CardsToDeal(ronda))
    {
      cartasEnJuego := [];
      baraja := mazo;
      var n := |jugadores|;
      turnoPrediccionIndex := StartingBidder(dealerIndex, n);
      var numCartas := CardsToDeal(ronda);
      ResetAndDeal(numCartas);
      turnoActual := 0;
    }

    /** The reset loop and the deal loop of iniciarRonda together. */
    method ResetAndDeal(numCartas: nat)
      requires Valid()
      modifies this`baraja, jugadores
      ensures var t := DealAll(EmptyHands(|jugadores|), old(baraja), numCartas);
        && baraja == t.rest
        && Redealt(old(Seats()), Seats(), t.hands)
    {
      ResetSeats();
      assert HandsOf(Seats()) == EmptyHands(|jugadores|);
      DealCards(numCartas);
    }

    /** The reset loop of iniciarRonda. */
    method ResetSeats()
      requires Distinct(jugadores)
      modifies jugadores
      ensures forall k :: 0 <= k < |jugadores| ==> jugadores[k].View() == ResetView(old(jugadores[k].View()))
    {
      for k := 0 to |jugadores|
        invariant forall i :: 0 <= i < k ==> jugadores[i].View() == ResetView(old(jugadores[i].View()))
        invariant forall i :: k <= i < |jugadores| ==> jugadores[i].View() == old(jugadores[i].View())
      {
        jugadores[k].ResetearParaNuevaRonda();
      }
    }

    /** The deal loop of iniciarRonda: `numCartas` passes round the table. */
    method DealCards(numCartas: nat)
      requires Distinct(jugadores)
      modifies this`baraja, jugadores
      ensures Table(HandsOf(Seats()), baraja) == DealAll(HandsOf(old(Seats())), old(baraja), numCartas)
      ensures SameButHands(old(Seats()), Seats())
    {
      ghost var s0 := Seats();
      for i := 0 to numCartas
        invariant SameButHands(s0, Seats())
        invariant DealAll(HandsOf(Seats()), baraja, numCartas - i) == DealAll(HandsOf(s0), old(baraja), numCartas)
      {
        DealOnePass();
      }
    }

    /** One pass of the deal loop: each seat in order takes the deck's last
        card while there is one. */
    method DealOnePass()
      requires Distinct(jugadores)
      modifies this`baraja, jugadores
      ensures Table(HandsOf(Seats()), baraja) == DealPass(HandsOf(old(Seats())), old(baraja))
      ensures SameButHands(old(Seats()), Seats())
    {
      ghost var s0 := Seats();
      for j := 0 to |jugadores|
        invariant SameButHands(s0, Seats())
        invariant Table(HandsOf(Seats()), baraja) == PartialPass(HandsOf(s0), old(baraja), j)
      {
        PartialPassStep(HandsOf(s0), old(baraja), j);
        ghost var s1 := Seats();
        ServeSeat(j);
        SameButHandsTrans(s0, s1, Seats());
      }
    }

    /** One step of the deal loop: `jugador.mano.push(baraja.pop())` for the
        seat j while the deck is not empty. */
    method ServeSeat(j: nat)
      requires Distinct(jugadores) && j < |jugadores|
      modifies this`baraja, jugadores[j]
      ensures SameButHands(old(Seats()), Seats())
      ensures Table(HandsOf(Seats()), baraja) == ServeStep(Table(HandsOf(old(Seats())), old(baraja)), j)
    {
      if baraja != [] {
        ghost var s1, b1 := Seats(), baraja;
        DealTo(j);
        HandsOfUpdate(s1, j, s1[j].mano + [b1[|b1| - 1]]);
      }
    }

    /** `jugador.mano.push(baraja.pop())` for the seat j. */
    method DealTo(j: nat)
      requires Distinct(jugadores) && j < |jugadores| && baraja != []
      modifies this`baraja, jugadores[j]
      ensures baraja == old(baraja)[..|old(baraja)| - 1]
      ensures Seats() == old(Seats())[j := old(Seats())[j].(mano := old(Seats())[j].mano + [old(baraja)[|old(baraja)| - 1]])]
    {
      var carta := baraja[|baraja| - 1];
      baraja := baraja[..|baraja| - 1];
      jugadores[j].mano := jugadores[j].mano + [carta];
    }

    // ----- Bidding -----

    /** opcionesValidasPrediccion for the player with this id. */
    function OpcionesValidasPrediccion(id: string): (r: seq<int>)
      reads this, jugadores
      ensures Increasing(r)
      ensures forall v :: v in r <==>
        && CardsForRound(ronda).Some? && 0 <= v <= CardsForRound(ronda).value
        && !(IsLastBidder(Seats(), turnoPrediccionIndex, dealerIndex, id)
             && v == CardsForRound(ronda).value - OthersBidSum(Seats(), id))
    {
      ValidBidOptions(CardsForRound(ronda), Seats(), turnoPrediccionIndex, dealerIndex, id)
    }

    /** getJugadorTurnoPrediccion names this id. */
    predicate EsTurnoPrediccion(id: string)
      reads this`jugadores, this`turnoPrediccionIndex
      ensures EsTurnoPrediccion(id) ==> id in Ids()
    {
      turnoPrediccionIndex < |jugadores| && jugadores[turnoPrediccionIndex].id == id
    }

    /** With distinct ids, the bidding turn belongs to an id exactly when
        that id's seat is the one the bidding pointer names. */
    lemma EsTurnoPrediccionSeat(id: string)
      requires Valid()
      ensures EsTurnoPrediccion(id) <==> IndexOf(Ids(), id) == Some(turnoPrediccionIndex)
    {
    }

    /** todosPredijeron. */
    predicate TodosPredijeron()
      reads this`jugadores, jugadores
      ensures TodosPredijeron() <==> forall k :: 0 <= k < |Seats()| ==> Seats()[k].prediccion.Some?
    {
      assert forall k :: 0 <= k < |jugadores| ==> Seats()[k].prediccion == jugadores[k].prediccion;
      forall k :: 0 <= k < |jugadores| ==> jugadores[k].prediccion.Some?
    }

    /** registrarPrediccion: refuses a caller out of turn, a non-integer, a
        value outside 0..total or a value not among the caller's options, and
        then changes nothing; otherwise records the prediction and either
        closes the bidding (the dealer has bid) or moves the pointer one seat
        back. `closed` stands for the 'predicciones_cerradas' notification. */
    method RegistrarPrediccion(id: string, cantidad: BidInput) returns (ok: bool, closed: bool)
      requires Valid()
      modifies this`turnoPrediccionIndex, jugadores
      ensures Valid() && jugadores == old(jugadores)
      ensures ok == (old(EsTurnoPrediccion(id)) && cantidad.IntBid?
                     && cantidad.n in old(OpcionesValidasPrediccion(id)))
      ensures !ok ==> !closed && Seats() == old(Seats())
                      && turnoPrediccionIndex == old(turnoPrediccionIndex)
      ensures ok ==>
        var tp := old(turnoPrediccionIndex);
        && closed == (tp == dealerIndex)
        && Seats() == old(Seats())[tp := old(Seats())[tp].(prediccion := Some(cantidad.n))]
        && turnoPrediccionIndex == (if closed then tp else PreviousSeat(tp, |jugadores|))
      ensures ok && closed ==>
        CardsForRound(ronda).Some? && SumBids(Seats()) != CardsForRound(ronda).value
    {
      if !EsTurnoPrediccion(id) || cantidad.NotInteger? {
        return false, false;
      }
      var total := CardsForRound(ronda);
      var val := cantidad.n;
      if val < 0 || (total.Some? && val > total.value) {
        return false, false;
      }
      if val !in OpcionesValidasPrediccion(id) {
        return false, false;
      }
      closed := AplicarPrediccion(id, val);
      ok := true;
    }

    /** The accepted branch of registrarPrediccion. */
    method AplicarPrediccion(id: string, val: int) returns (closed: bool)
      requires Valid() && EsTurnoPrediccion(id) && val in OpcionesValidasPrediccion(id)
      modifies this`turnoPrediccionIndex, jugadores
      ensures Valid()
      ensures var tp := old(turnoPrediccionIndex);
        && closed == (tp == dealerIndex)
        && Seats() == old(Seats())[tp := old(Seats())[tp].(prediccion := Some(val))]
        && turnoPrediccionIndex == (if closed then tp else PreviousSeat(tp, |jugadores|))
      ensures closed ==>
        CardsForRound(ronda).Some? && SumBids(Seats()) != CardsForRound(ronda).value
    {
      var n := |jugadores|;
      var tp := turnoPrediccionIndex;
      ghost var seats0 := Seats();
      SeatIdsDistinct();
      // getJugador(id): ids are distinct, so this is the seat whose turn it is
      IndexOfDistinct(Ids(), tp);
      SetPrediccion(IndexOf(Ids(), id).value, val);
      if tp == dealerIndex {
        ClosingBid(seats0, tp, id, val, CardsForRound(ronda));
        return true;
      }
      turnoPrediccionIndex := PreviousSeat(tp, n);
      return false;
    }

    /** `jugador.prediccion = val` for the seat k. */
    method SetPrediccion(k: nat, val: int)
      requires Distinct(jugadores) && k < |jugadores|
      modifies jugadores[k]
      ensures Seats() == old(Seats())[k := old(Seats())[k].(prediccion := Some(val))]
    {
      jugadores[k].prediccion := Some(val);
    }

    lemma SeatIdsDistinct()
      requires Valid()
      ensures forall i, j :: 0 <= i < j < |jugadores| ==> Seats()[i].id != Seats()[j].id
    {
      forall i, j | 0 <= i < j < |jugadores| ensures Seats()[i].id != Seats()[j].id {
        assert Ids()[i] != Ids()[j];
      }
    }

    // ----- Tricks -----

    /** jugarCarta: refuses an unknown player, a player who already has a
        card on the table, and a card payload that does not name a card of
        the hand, changing nothing; otherwise moves the card from the hand to
        the end of the table. It does not check whose turn it is. */
    method JugarCarta(id: string, spec: CardSpec) returns (ok: bool)
      requires Valid()
      modifies this, jugadores
      ensures Valid() && jugadores == old(jugadores)
      ensures (ronda, dealerIndex, turnoPrediccionIndex, turnoActual, baraja)
           == old((ronda, dealerIndex, turnoPrediccionIndex, turnoActual, baraja))
      ensures var seat := IndexOf(old(Ids()), id);
        ok == (seat.Some? && id !in old(TrickIds(cartasEnJuego))
               && PlayFromHand(old(Seats())[seat.value].mano, spec).0.Some?)
      ensures !ok ==> Seats() == old(Seats()) && cartasEnJuego == old(cartasEnJuego)
      ensures ok ==>
        var k := IndexOf(old(Ids()), id).value;
        var play := PlayFromHand(old(Seats())[k].mano, spec);
        && Seats() == old(Seats())[k := old(Seats())[k].(mano := play.1)]
        && cartasEnJuego == old(cartasEnJuego) + [Jugada(jugadores[k], play.0.value)]
    {
      var seat := IndexOf(Ids(), id);
      if seat.None? {
        return false;
      }
      if id in TrickIds(cartasEnJuego) {
        return false;
      }
      var jugador := jugadores[seat.value];
      ghost var seats0 := Seats();
      var cartaJug := jugador.JugarCarta(spec);
      if cartaJug.None? {
        assert Seats() == seats0;
        return false;
      }
      assert Seats() == seats0[seat.value := seats0[seat.value].(mano := jugador.mano)];
      cartasEnJuego := cartasEnJuego + [Jugada(jugador, cartaJug.value)];
      return true;
    }

    /** manoTerminada. */
    predicate ManoTerminada()
      reads this`jugadores, this`cartasEnJuego
      ensures ManoTerminada() <==> |cartasEnJuego| == |jugadores|
    {
      |cartasEnJuego| == |jugadores|
    }

    /** rondaTerminada. */
    predicate RondaTerminada()
      reads this`jugadores, jugadores
      ensures RondaTerminada() <==> forall k :: 0 <= k < |Seats()| ==> Seats()[k].mano == []
    {
      assert forall k :: 0 <= k < |jugadores| ==> Seats()[k].mano == jugadores[k].mano;
      forall k :: 0 <= k < |jugadores| ==> jugadores[k].mano == []
    }

    /** evaluarMano: the first card on the table with the highest number wins
        (strict `>`, so an equal number played later does not); its player's
        tricks go up by one, and the table is cleared. */
    method EvaluarMano()
      requires Valid()
      modifies this, TrickPlayers()
      ensures Valid() && jugadores == old(jugadores) && cartasEnJuego == []
      ensures (ronda, dealerIndex, turnoPrediccionIndex, turnoActual, baraja)
           == old((ronda, dealerIndex, turnoPrediccionIndex, turnoActual, baraja))
      ensures (forall i :: 0 <= i < |old(cartasEnJuego)| ==> old(cartasEnJuego)[i].carta.numero <= -1)
              ==> Seats() == old(Seats())
      ensures forall w :: IsFirstMax(Ranks(old(cartasEnJuego)), w) && old(cartasEnJuego)[w].carta.numero > -1 ==>
        var g := old(cartasEnJuego)[w].jugador;
        && g.manosGanadas == old(g.manosGanadas) + 1
        && forall k :: 0 <= k < |jugadores| ==>
             Seats()[k] == if jugadores[k] == g
                           then old(Seats()[k]).(manosGanadas := old(Seats()[k]).manosGanadas + 1)
                           else old(Seats()[k])
    {
      var w := TrickWinner(Ranks(cartasEnJuego));
      if w.Some? {
        var ganador := cartasEnJuego[w.value].jugador;
        ganador.manosGanadas := ganador.manosGanadas + 1;
        forall w' | IsFirstMax(Ranks(old(cartasEnJuego)), w') ensures w' == w.value {
          FirstMaxUnique(Ranks(old(cartasEnJuego)), w', w.value);
        }
      }
      cartasEnJuego := [];
    }

    // ----- Round end -----

    /** evaluarPredicciones: each seat whose prediction equals its tricks
        gains 5 plus its tricks; no other change. */
    method EvaluarPredicciones()
      requires Valid()
      modifies jugadores
      ensures Seats() == ScoreAll(old(Seats()))
      ensures forall k :: 0 <= k < |jugadores| ==>
        Seats()[k].puntos == old(Seats()[k].puntos) + old(ResultadoMano(Seats()))[k].puntosGanados
    {
      for k := 0 to |jugadores|
        invariant forall i :: 0 <= i < k ==> jugadores[i].View() == Scored(old(jugadores[i].View()))
        invariant forall i :: k <= i < |jugadores| ==> jugadores[i].View() == old(jugadores[i].View())
      {
        var j := jugadores[k];
        if j.prediccion == Some(j.manosGanadas as int) {
          j.puntos := j.puntos + 5 + j.manosGanadas;
        }
      }
      forall k | 0 <= k < |jugadores|
        ensures Seats()[k].puntos == old(Seats()[k].puntos) + old(ResultadoMano(Seats()))[k].puntosGanados
      {
        ReportMatchesScoring(old(Seats()), k);
      }
    }

    /** prepararSiguienteRonda: next round, dealer one seat on, new deal. */
    method PrepararSiguienteRonda(draws: seq<int>)
      requires Valid() && |jugadores| > 0 && ValidDraws(draws, 40)
      modifies this, jugadores
      ensures Valid() && jugadores == old(jugadores)
      ensures ronda == old(ronda) + 1 && dealerIndex == NextSeat(old(dealerIndex), |jugadores|)
      ensures RoundOpened(old(Seats()), Shuffle(Baraja(), draws), CardsToDeal(ronda))
    {
      ghost var before := Seats();
      ronda := ronda + 1;
      dealerIndex := NextSeat(dealerIndex, |jugadores|);
      assert Seats() == before;
      IniciarRonda(draws);
    }

    /** jugadorGanador: from round 7 on, the seat with the most points, ties
        going to the earlier seat; before that (or in an empty room) none. */
    function JugadorGanador(): (r: Option<nat>)
      reads this, jugadores
      ensures r.Some? <==> ronda >= |PatronCartas| && |jugadores| > 0
      ensures r.Some? ==> IsFirstMax(Points(Seats()), r.value)
    {
      if ronda >= |PatronCartas| && |jugadores| > 0 then Some(BestIndex(Points(Seats()))) else None
    }

    /** getResultadoMano. */
    function GetResultadoMano(): (r: seq<ResultRow>)
      reads this, jugadores
      ensures |r| == |jugadores|
      ensures forall k :: 0 <= k < |r| ==>
        && r[k].nombre == jugadores[k].nombre && r[k].prediccion == jugadores[k].prediccion
        && Scored(Seats()[k]).puntos == jugadores[k].puntos + r[k].puntosGanados
        && (r[k].acerto <==> r[k].puntosGanados > 0)
        && (r[k].acerto <==> jugadores[k].prediccion == Some(jugadores[k].manosGanadas as int))
    {
      ResultadoMano(Seats())
    }
  }

  /** The `salas` map from room code to room, with its three operations. */
  class Registry {
    var salas: map<string, GameRoom>

    constructor ()
      ensures salas == map[]
    {
      salas := map[];
    }

    /** createGameRoom: a new room under the given code; a room already
        registered under that code is replaced. */
    method CreateGameRoom(codigo: string, idHost: string, nombreHost: string, maxJugadores: int)
      returns (room: GameRoom)
      modifies this
      ensures fresh(room) && |room.jugadores| == 1 && room.Valid() && fresh(room.jugadores[0])
      ensures room.codigo == codigo && room.hostId == idHost && room.maxJugadores == maxJugadores
      ensures room.Seats() == [NewView(idHost, nombreHost)] && room.Pointers() == (0, 0, 0, 0, [], [])
      ensures salas == old(salas)[codigo := room]
    {
      room := new GameRoom(codigo, idHost, nombreHost, maxJugadores);
      salas := salas[codigo := room];
    }

    /** getGameRoom. */
    function GetGameRoom(codigo: string): (r: Option<GameRoom>)
      reads this
      ensures r.Some? <==> codigo in salas
      ensures r.Some? ==> r.value == salas[codigo]
    {
      if codigo in salas then Some(salas[codigo]) else None
    }

    /** eliminarSala: forgets the code and keeps every other room. */
    method EliminarSala(codigo: string)
      modifies this
      ensures salas == old(salas) - {codigo}
      ensures forall c :: c in old(salas) && c != codigo ==> c in salas && salas[c] == old(salas)[c]
    {
      salas := salas - {codigo};
    }
  }
}
