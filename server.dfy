/**
 * The game rules that server/index.js applies around a GameRoom: whose turn
 * it is to play, who leads the first trick and the following ones, which
 * bid the bidding timer sends on a player's behalf, and who may start the
 * game. Each socket handler becomes a method over the room; the messages it
 * emits are left out, and the values they would announce are returned.
 */
module Server {
  import opened Wrappers
  import opened Seqs
  import opened Arith
  import opened Deck
  import opened Players
  import opened Rules
  import opened Rooms

  // ----- Turn arithmetic -----

  /** jugar_carta: the seat expected to play once `played` cards of the trick
      are on the table, counting on from the leader `turnoActual`. */
  function ExpectedSeat(turnoActual: int, played: nat, n: nat): (r: int)
    requires n > 0
    ensures 0 <= r < n
  {
    (turnoActual + played) % n
  }

  /** The leader plays first, and each card moves the turn one seat on. */
  lemma ExpectedSeatStep(turnoActual: int, played: nat, n: nat)
    requires n > 0
    ensures 0 <= turnoActual < n ==> ExpectedSeat(turnoActual, 0, n) == turnoActual
    ensures ExpectedSeat(turnoActual, played + 1, n) == NextSeat(ExpectedSeat(turnoActual, played, n), n)
  {
    if 0 <= turnoActual < n {
      DivModUnique(turnoActual, n, 0, turnoActual);
    }
    var x := turnoActual + played;
    var q, r := x / n, x % n;
    assert x == q * n + r;
    if r + 1 < n {
      DivModUnique(x + 1, n, q, r + 1);
      DivModUnique(r + 1, n, 0, r + 1);
    } else {
      DivModUnique(x + 1, n, q + 1, 0);
      DivModUnique(r + 1, n, 1, 0);
    }
  }

  /** Within one trick of n cards no seat is asked to play twice, so the n
      turns of a trick go to the n seats. */
  lemma ExpectedSeatsDistinct(turnoActual: int, n: nat, a: nat, b: nat)
    requires a < b < n
    ensures ExpectedSeat(turnoActual, a, n) != ExpectedSeat(turnoActual, b, n)
  {
    ModDistinct(turnoActual + a, turnoActual + b, n);
  }

  /** The turns of a trick reach every seat: with ExpectedSeatsDistinct, a
      trick that manoTerminada calls complete (one entry per seat) has asked
      each seat exactly once. */
  lemma TurnsCoverSeats(turnoActual: int, n: nat, s: int)
    requires 0 <= s < n
    ensures exists a :: 0 <= a < n && ExpectedSeat(turnoActual, a, n) == s
  {
    var q, a := (s - turnoActual) / n, (s - turnoActual) % n;
    assert s - turnoActual == q * n + a;
    DivModUnique(turnoActual + a, n, -q, s);
    assert ExpectedSeat(turnoActual, a, n) == s;
  }

  /** predicciones_cerradas: play opens at NextSeat of the dealer, the
      dealer's successor: stepping back from it, as the bidding does, reaches
      the dealer, and with two or more seats it is not the dealer. */
  lemma FirstLeaderFollowsDealer(dealerIndex: int, n: nat)
    requires 0 <= dealerIndex < n
    ensures PreviousSeat(NextSeat(dealerIndex, n), n) == dealerIndex
    ensures n > 1 ==> NextSeat(dealerIndex, n) != dealerIndex
  {
    if dealerIndex + 1 < n {
      DivModUnique(dealerIndex + 1, n, 0, dealerIndex + 1);
      DivModUnique(dealerIndex + n, n, 1, dealerIndex);
    } else {
      DivModUnique(dealerIndex + 1, n, 1, 0);
      DivModUnique(n - 1, n, 0, n - 1);
    }
  }

  // ----- Bidding timer -----

  /** The bid the timer sends: 0 when it is allowed, else the first option.
      With no options at all `opts[0]` is undefined, which registrarPrediccion
      reads as not an integer. */
  function AutoBid(opts: seq<int>): (r: BidInput)
    ensures r.NotInteger? <==> opts == []
    ensures r.IntBid? ==> r.n in opts
  {
    if 0 in opts then IntBid(0)
    else if opts == [] then NotInteger
    else IntBid(opts[0])
  }

  /** Once a round is under way (at least one card each) the timer's bid is
      one of the caller's options and the smallest of them. */
  lemma AutoBidIsSmallestOption(total: nat, seats: seq<PlayerView>, turn: int, dealer: int, id: string)
    requires total >= 1
    ensures var opts := ValidBidOptions(Some(total), seats, turn, dealer, id);
      && AutoBid(opts).IntBid?
      && AutoBid(opts).n in opts
      && forall v :: v in opts ==> AutoBid(opts).n <= v
  {
    var opts := ValidBidOptions(Some(total), seats, turn, dealer, id);
    if 0 !in opts {
      assert 1 in opts;
      forall v | v in opts ensures opts[0] <= v {
        var i :| 0 <= i < |opts| && opts[i] == v;
        if i > 0 {
          assert opts[0] < opts[i];
        }
      }
    }
  }

  // ----- Trick winner -----

  /** jugar_carta's own winner loop: `maxNum` starts at minus infinity
      (None here) and an entry replaces the current winner only with a
      strictly larger number, so the first entry with the largest number
      wins. */
  method LeaderEntry(trick: seq<Jugada>) returns (w: Option<nat>)
    ensures w.None? <==> trick == []
    ensures w.Some? ==> IsFirstMax(Ranks(trick), w.value)
  {
    var ranks := Ranks(trick);
    var maxNum: Option<int> := None;
    w := None;
    for i := 0 to |trick|
      invariant w.None? <==> i == 0
      invariant maxNum.None? <==> w.None?
      invariant w.Some? ==> IsFirstMax(ranks[..i], w.value) && maxNum.value == ranks[w.value]
    {
      var num := trick[i].carta.numero;
      if maxNum.None? || num > maxNum.value {
        maxNum := Some(num);
        w := Some(i);
      }
    }
    assert ranks[..|trick|] == ranks;
  }

  // ----- Handlers -----

  /** iniciar_partida: only the host may start; anyone else is refused and the
      room is left as it was. The prediction timer it then arms is left out. */
  method OnIniciarPartida(room: GameRoom, socketId: string, draws: seq<int>) returns (ok: bool)
    requires room.Valid() && ValidDraws(draws, 40)
    modifies room, room.jugadores
    ensures room.Valid() && room.jugadores == old(room.jugadores)
    ensures ok == (socketId == room.hostId)
    ensures !ok ==> room.Seats() == old(room.Seats()) && room.Pointers() == old(room.Pointers())
    ensures ok ==>
      && room.ronda == 1 && room.dealerIndex == old(room.dealerIndex)
      && room.RoundOpened(old(room.Seats()), Shuffle(Baraja(), draws), CardsToDeal(1))
  {
    if !room.EsHost(socketId) {
      return false;
    }
    room.IniciarPartida(draws);
    return true;
  }

  /** enviar_prediccion: registrarPrediccion, and when it closes the bidding
      the handler's 'predicciones_cerradas' branch hands the lead to the seat
      after the dealer. */
  method OnEnviarPrediccion(room: GameRoom, socketId: string, cantidad: BidInput) returns (ok: bool, closed: bool)
    requires room.Valid()
    modifies room`turnoPrediccionIndex, room`turnoActual, room.jugadores
    ensures room.Valid() && room.jugadores == old(room.jugadores)
    ensures ok == (old(room.EsTurnoPrediccion(socketId)) && cantidad.IntBid?
                   && cantidad.n in old(room.OpcionesValidasPrediccion(socketId)))
    ensures !ok ==> !closed && room.Seats() == old(room.Seats()) && room.Pointers() == old(room.Pointers())
    ensures closed ==>
      && ok && |room.jugadores| > 0
      && room.turnoActual == NextSeat(room.dealerIndex, |room.jugadores|)
      && old(room.turnoPrediccionIndex) == room.dealerIndex
    ensures !closed ==> room.turnoActual == old(room.turnoActual)
    ensures ok ==>
      var tp := old(room.turnoPrediccionIndex);
      && closed == (tp == room.dealerIndex)
      && room.Seats() == old(room.Seats())[tp := old(room.Seats())[tp].(prediccion := Some(cantidad.n))]
      && room.turnoPrediccionIndex == (if closed then tp else PreviousSeat(tp, |room.jugadores|))
    ensures closed ==> CardsForRound(room.ronda).Some? && SumBids(room.Seats()) != CardsForRound(room.ronda).value
  {
    ok, closed := room.RegistrarPrediccion(socketId, cantidad);
    if closed {
      room.turnoActual := NextSeat(room.dealerIndex, |room.jugadores|);
    }
  }

  /** The bidding timer firing for the player whose turn it was when it was
      armed: it sends AutoBid of that player's options and then checks
      todosPredijeron. Unlike enviar_prediccion it never sets turnoActual. */
  method OnAutoPrediccion(room: GameRoom, id: string) returns (auto: BidInput, ok: bool, todos: bool)
    requires room.Valid()
    modifies room`turnoPrediccionIndex, room.jugadores
    ensures room.Valid() && room.jugadores == old(room.jugadores)
    ensures auto == AutoBid(old(room.OpcionesValidasPrediccion(id)))
    ensures ok == (old(room.EsTurnoPrediccion(id)) && auto.IntBid?
                   && auto.n in old(room.OpcionesValidasPrediccion(id)))
    ensures old(room.EsTurnoPrediccion(id)) && room.ronda >= 1 ==> ok
    ensures !ok ==> room.Seats() == old(room.Seats()) && room.Pointers() == old(room.Pointers())
    ensures room.turnoActual == old(room.turnoActual)
    ensures todos == room.TodosPredijeron()
    ensures ok ==>
      var tp := old(room.turnoPrediccionIndex);
      && auto.IntBid?
      && room.Seats() == old(room.Seats())[tp := old(room.Seats())[tp].(prediccion := Some(auto.n))]
      && room.turnoPrediccionIndex == (if tp == room.dealerIndex then tp else PreviousSeat(tp, |room.jugadores|))
    ensures ok && old(room.turnoPrediccionIndex) == room.dealerIndex ==>
      CardsForRound(room.ronda).Some? && SumBids(room.Seats()) != CardsForRound(room.ronda).value
  {
    ghost var turno0 := room.turnoActual;
    var opts := room.OpcionesValidasPrediccion(id);
    auto := AutoBid(opts);
    ghost var total := CardsForRound(room.ronda);
    if room.EsTurnoPrediccion(id) && room.ronda >= 1 {
      AutoBidIsSmallestOption(total.value, room.Seats(), room.turnoPrediccionIndex, room.dealerIndex, id);
      assert auto.IntBid? && auto.n in opts;
    }
    var closed;
    ok, closed := room.RegistrarPrediccion(id, auto);
    assert ok ==> closed == (old(room.turnoPrediccionIndex) == room.dealerIndex);
    assert room.turnoActual == turno0;
    todos := room.TodosPredijeron();
  }

  /** The seat that leads after a trick won by the player with id `g`: the
      seat holding that id, when the id is a non-empty string still seated. */
  function WinnerSeat(ids: seq<string>, g: string): (r: Option<nat>)
    ensures r.Some? <==> g != "" && g in ids
    ensures r.Some? ==> r.value < |ids| && ids[r.value] == g && g !in ids[..r.value]
  {
    if g == "" then None else IndexOf(ids, g)
  }

  /** The seats once evaluarMano has credited player g: the seat that is g
      gains a trick and every other seat is as it was. */
  function Credit(before: seq<PlayerView>, jugadores: seq<Player>, g: Player): seq<PlayerView>
    requires |before| == |jugadores|
  {
    seq(|before|, k requires 0 <= k < |before| =>
      if jugadores[k] == g then before[k].(manosGanadas := before[k].manosGanadas + 1) else before[k])
  }

  /** The seats once the trick is closed with entry w winning: its player is
      credited when the number beats evaluarMano's starting -1, and no seat
      changes otherwise. */
  function TrickSeats(trick: seq<Jugada>, w: nat, before: seq<PlayerView>, jugadores: seq<Player>): seq<PlayerView>
    requires w < |trick| && |before| == |jugadores|
  {
    if trick[w].carta.numero > -1 then Credit(before, jugadores, trick[w].jugador) else before
  }

  /** Closing a trick changes no hand, so whether the round is over can be
      read off the seats from before the close. */
  lemma TrickSeatsKeepHands(trick: seq<Jugada>, w: nat, before: seq<PlayerView>, jugadores: seq<Player>)
    requires w < |trick| && |before| == |jugadores|
    ensures |TrickSeats(trick, w, before, jugadores)| == |before|
    ensures forall k :: 0 <= k < |before| ==> TrickSeats(trick, w, before, jugadores)[k].mano == before[k].mano
  {
  }

  /** What closing the trick `trick`, won at position w, does to the seats
      and the lead: the winning entry is the first with the highest number,
      the seats become TrickSeats, and the seat holding the winner's id, if
      any, leads next. */
  predicate TrickClosed(trick: seq<Jugada>, w: nat, ids: seq<string>,
                        before: seq<PlayerView>, after: seq<PlayerView>, jugadores: seq<Player>,
                        turno0: int, turno1: int)
  {
    && IsFirstMax(Ranks(trick), w)
    && |before| == |jugadores|
    && after == TrickSeats(trick, w, before, jugadores)
    && var g := trick[w].jugador;
       turno1 == (if WinnerSeat(ids, g.id).Some? then WinnerSeat(ids, g.id).value else turno0)
  }

  /** What evaluarMano's contract gives for the first maximal entry w: the
      seats of TrickSeats, crediting the winner or, when its number is at
      most -1, changing nothing. */
  lemma WinnerCredited(trick: seq<Jugada>, w: nat, before: seq<PlayerView>, after: seq<PlayerView>, jugadores: seq<Player>)
    requires IsFirstMax(Ranks(trick), w)
    requires |before| == |jugadores| && |after| == |jugadores|
    requires (forall i :: 0 <= i < |trick| ==> trick[i].carta.numero <= -1) ==> after == before
    requires trick[w].carta.numero > -1 ==>
      forall k :: 0 <= k < |jugadores| ==>
        after[k] == if jugadores[k] == trick[w].jugador
                    then before[k].(manosGanadas := before[k].manosGanadas + 1)
                    else before[k]
    ensures after == TrickSeats(trick, w, before, jugadores)
  {
    if trick[w].carta.numero <= -1 {
      forall i | 0 <= i < |trick| ensures trick[i].carta.numero <= -1 {
        assert Ranks(trick)[i] <= Ranks(trick)[w];
      }
    } else {
      var c := Credit(before, jugadores, trick[w].jugador);
      forall k | 0 <= k < |after| ensures after[k] == c[k] {
      }
    }
  }

  /** jugar_carta once the trick is complete: the winner is found with
      LeaderEntry before evaluarMano clears the table, evaluarMano credits
      its own winner, and the seat holding the winner's id (when that id is
      a non-empty string and still seated) leads the next trick. */
  method CerrarMano(room: GameRoom) returns (w: Option<nat>)
    requires room.Valid()
    modifies room, room.TrickPlayers()
    ensures room.Valid() && room.jugadores == old(room.jugadores) && room.cartasEnJuego == []
    ensures (room.ronda, room.dealerIndex, room.turnoPrediccionIndex, room.baraja)
         == old((room.ronda, room.dealerIndex, room.turnoPrediccionIndex, room.baraja))
    ensures room.Ids() == old(room.Ids())
    ensures w.None? <==> old(room.cartasEnJuego) == []
    ensures w.Some? ==>
      && TrickClosed(old(room.cartasEnJuego), w.value, old(room.Ids()), old(room.Seats()), room.Seats(),
                     room.jugadores, old(room.turnoActual), room.turnoActual)
      && var g := old(room.cartasEnJuego)[w.value].jugador;
         old(room.cartasEnJuego)[w.value].carta.numero > -1 ==> g.manosGanadas == old(g.manosGanadas) + 1
    ensures w.None? ==> room.turnoActual == old(room.turnoActual) && room.Seats() == old(room.Seats())
  {
    var jugadas := room.cartasEnJuego;
    ghost var seats0, ids0, turno0 := room.Seats(), room.Ids(), room.turnoActual;
    w := LeaderEntry(jugadas);
    var ganadorId := if w.Some? then jugadas[w.value].jugador.id else "";
    room.EvaluarMano();
    ghost var seats1 := room.Seats();
    if w.Some? {
      WinnerCredited(jugadas, w.value, seats0, seats1, room.jugadores);
    }
    assert room.Ids() == ids0 && room.turnoActual == turno0;
    PasarTurnoAlGanador(room, ganadorId);
    assert room.Seats() == seats1;
  }

  /** The next trick's leader: the seat holding the winner's id, when that
      id is a non-empty string and still seated; otherwise the lead stays. */
  method PasarTurnoAlGanador(room: GameRoom, ganadorId: string)
    modifies room`turnoActual
    ensures room.Seats() == old(room.Seats())
    ensures var seat := WinnerSeat(room.Ids(), ganadorId);
      room.turnoActual == if seat.Some? then seat.value else old(room.turnoActual)
  {
    if ganadorId != "" {
      var idx := IndexOf(room.Ids(), ganadorId);
      if idx.Some? {
        room.turnoActual := idx.value;
      }
    }
  }

  /** jugar_carta once the round is over: evaluarPredicciones, then
      prepararSiguienteRonda (which already deals) and iniciarRonda again.
      Round and dealer advance once, and the seats are the scored seats
      with the second deal's hands: the first deal leaves no trace. */
  method CerrarRonda(room: GameRoom, draws1: seq<int>, draws2: seq<int>)
    requires room.Valid() && |room.jugadores| > 0 && ValidDraws(draws1, 40) && ValidDraws(draws2, 40)
    modifies room, room.jugadores
    ensures room.Valid() && room.jugadores == old(room.jugadores)
    ensures room.ronda == old(room.ronda) + 1
    ensures room.dealerIndex == NextSeat(old(room.dealerIndex), |room.jugadores|)
    ensures room.RoundOpened(ScoreAll(old(room.Seats())), Shuffle(Baraja(), draws2), CardsToDeal(room.ronda))
  {
    room.EvaluarPredicciones();
    ghost var scored := room.Seats();
    room.PrepararSiguienteRonda(draws1);
    ghost var first := room.Seats();
    room.IniciarRonda(draws2);
    var n := |room.jugadores|;
    RedealtTwice(scored, first, room.Seats(),
      DealAll(EmptyHands(n), Shuffle(Baraja(), draws1), CardsToDeal(room.ronda)).hands,
      DealAll(EmptyHands(n), Shuffle(Baraja(), draws2), CardsToDeal(room.ronda)).hands);
  }

  /** What jugar_carta ends with; each case names the message it would emit. */
  datatype PlayOutcome =
    | NotSeated                      // no seat for this socket: ignored
    | OutOfTurn                      // 'error_jugada' before jugarCarta is called
    | Refused                        // jugarCarta returned null: 'error_jugada'
    | NextTurn(seat: int)            // trick goes on: 'turno_jugar' for this seat
    | TrickOver(winner: nat, leader: Option<nat>)
                                     // trick closed: 'fin_mano', and 'turno_jugar'
                                     // for the leader, if seated; `winner` is the
                                     // position of the winning entry
    | RoundOver(winner: nat)         // last trick closed and the round with it:
                                     // scored, then dealt again

  /** jugar_carta: the turn check, jugarCarta, and on a complete trick the
      winner, evaluarMano and possibly the end of the round. */
  method OnJugarCarta(room: GameRoom, socketId: string, carta: CardSpec, draws1: seq<int>, draws2: seq<int>)
    returns (r: PlayOutcome)
    requires room.Valid() && ValidDraws(draws1, 40) && ValidDraws(draws2, 40)
    modifies room, room.jugadores, room.TrickPlayers()
    ensures room.Valid() && room.jugadores == old(room.jugadores)
    ensures var seat := IndexOf(old(room.Ids()), socketId);
      var expected := if |room.jugadores| > 0
        then ExpectedSeat(old(room.turnoActual), old(|room.cartasEnJuego|), |room.jugadores|) else 0;
      && (r.NotSeated? <==> seat.None?)
      && (r.OutOfTurn? <==> seat.Some? && seat.value != expected)
      && (r.Refused? <==>
            && seat.Some? && seat.value == expected
            && !(socketId !in old(TrickIds(room.cartasEnJuego))
                 && PlayFromHand(old(room.Seats())[seat.value].mano, carta).0.Some?))
    ensures r.NotSeated? || r.OutOfTurn? || r.Refused? ==>
      room.Seats() == old(room.Seats()) && room.Pointers() == old(room.Pointers())
    ensures r.NextTurn? || r.TrickOver? || r.RoundOver? ==>
      var k := IndexOf(old(room.Ids()), socketId).value;
      var play := PlayFromHand(old(room.Seats())[k].mano, carta);
      && play.0.Some?
      && var played := old(room.Seats())[k := old(room.Seats())[k].(mano := play.1)];
         var trick := old(room.cartasEnJuego) + [Jugada(room.jugadores[k], play.0.value)];
         && (r.NextTurn? ==>
               && room.Seats() == played && room.cartasEnJuego == trick
               && room.turnoActual == old(room.turnoActual)
               && r.seat == ExpectedSeat(room.turnoActual, |room.cartasEnJuego|, |room.jugadores|)
               && room.ronda == old(room.ronda))
         && (r.NextTurn? <==> |trick| != |room.jugadores|)
         && (r.RoundOver? <==>
               |trick| == |room.jugadores| && forall k :: 0 <= k < |played| ==> played[k].mano == [])
         && (r.TrickOver? ==>
               && |trick| == |room.jugadores|
               && room.cartasEnJuego == [] && room.ronda == old(room.ronda)
               && (r.leader.Some? <==> room.turnoActual < |room.jugadores|)
               && (r.leader.Some? ==> r.leader.value == room.turnoActual)
               && TrickClosed(trick, r.winner, old(room.Ids()), played, room.Seats(),
                              room.jugadores, old(room.turnoActual), room.turnoActual))
         && (r.RoundOver? ==>
               && IsFirstMax(Ranks(trick), r.winner)
               && room.RoundOpened(ScoreAll(TrickSeats(trick, r.winner, played, room.jugadores)),
                                   Shuffle(Baraja(), draws2), CardsToDeal(room.ronda)))
    ensures r.NextTurn? || r.TrickOver? ==>
      (room.dealerIndex, room.turnoPrediccionIndex, room.baraja)
      == old((room.dealerIndex, room.turnoPrediccionIndex, room.baraja))
    ensures r.RoundOver? ==>
      && old(|room.cartasEnJuego|) + 1 == |room.jugadores|
      && room.ronda == old(room.ronda) + 1
      && room.dealerIndex == NextSeat(old(room.dealerIndex), |room.jugadores|)
      && room.cartasEnJuego == [] && room.turnoActual == 0
  {
    var idx := IndexOf(room.Ids(), socketId);
    if idx.None? {
      return NotSeated;
    }
    if idx.value != ExpectedSeat(room.turnoActual, |room.cartasEnJuego|, |room.jugadores|) {
      return OutOfTurn;
    }
    r := JugarEnTurno(room, socketId, carta, draws1, draws2);
  }

  /** jugar_carta after the turn check has passed. */
  method JugarEnTurno(room: GameRoom, socketId: string, carta: CardSpec, draws1: seq<int>, draws2: seq<int>)
    returns (r: PlayOutcome)
    requires room.Valid() && ValidDraws(draws1, 40) && ValidDraws(draws2, 40)
    requires socketId in room.Ids()
    modifies room, room.jugadores, room.TrickPlayers()
    ensures room.Valid() && room.jugadores == old(room.jugadores)
    ensures r.Refused? || r.NextTurn? || r.TrickOver? || r.RoundOver?
    ensures var seat := IndexOf(old(room.Ids()), socketId);
      r.Refused? <==> !(socketId !in old(TrickIds(room.cartasEnJuego))
                        && PlayFromHand(old(room.Seats())[seat.value].mano, carta).0.Some?)
    ensures r.Refused? ==> room.Seats() == old(room.Seats()) && room.Pointers() == old(room.Pointers())
    ensures !r.Refused? ==>
      var k := IndexOf(old(room.Ids()), socketId).value;
      var play := PlayFromHand(old(room.Seats())[k].mano, carta);
      && play.0.Some?
      && var played := old(room.Seats())[k := old(room.Seats())[k].(mano := play.1)];
         var trick := old(room.cartasEnJuego) + [Jugada(room.jugadores[k], play.0.value)];
         && (r.NextTurn? ==>
               && room.Seats() == played && room.cartasEnJuego == trick
               && room.turnoActual == old(room.turnoActual)
               && r.seat == ExpectedSeat(room.turnoActual, |room.cartasEnJuego|, |room.jugadores|)
               && room.ronda == old(room.ronda))
         && (r.NextTurn? <==> |trick| != |room.jugadores|)
         && (r.RoundOver? <==>
               |trick| == |room.jugadores| && forall k :: 0 <= k < |played| ==> played[k].mano == [])
         && (r.TrickOver? ==>
               && |trick| == |room.jugadores|
               && room.cartasEnJuego == [] && room.ronda == old(room.ronda)
               && (r.leader.Some? <==> room.turnoActual < |room.jugadores|)
               && (r.leader.Some? ==> r.leader.value == room.turnoActual)
               && TrickClosed(trick, r.winner, old(room.Ids()), played, room.Seats(),
                              room.jugadores, old(room.turnoActual), room.turnoActual))
         && (r.RoundOver? ==>
               && IsFirstMax(Ranks(trick), r.winner)
               && room.RoundOpened(ScoreAll(TrickSeats(trick, r.winner, played, room.jugadores)),
                                   Shuffle(Baraja(), draws2), CardsToDeal(room.ronda)))
    ensures r.NextTurn? || r.TrickOver? ==>
      (room.dealerIndex, room.turnoPrediccionIndex, room.baraja)
      == old((room.dealerIndex, room.turnoPrediccionIndex, room.baraja))
    ensures r.RoundOver? ==>
      && old(|room.cartasEnJuego|) + 1 == |room.jugadores|
      && room.ronda == old(room.ronda) + 1
      && room.dealerIndex == NextSeat(old(room.dealerIndex), |room.jugadores|)
      && room.cartasEnJuego == [] && room.turnoActual == 0
  {
    ghost var players := set p | p in room.jugadores;
    var ok := room.JugarCarta(socketId, carta);
    if !ok {
      return Refused;
    }
    ghost var k := IndexOf(old(room.Ids()), socketId).value;
    ghost var play := PlayFromHand(old(room.Seats())[k].mano, carta);
    ghost var played := old(room.Seats())[k := old(room.Seats())[k].(mano := play.1)];
    assert room.Seats() == played && room.Ids() == old(room.Ids());
    assert room.cartasEnJuego == old(room.cartasEnJuego) + [Jugada(room.jugadores[k], play.0.value)];
    assert room.TrickPlayers() <= old(room.TrickPlayers()) + players;
    r := TrasJugada(room, draws1, draws2);
  }

  /** jugar_carta once the card is on the table: announce the next seat, or
      close the trick, and the round if every hand is empty. */
  method TrasJugada(room: GameRoom, draws1: seq<int>, draws2: seq<int>) returns (r: PlayOutcome)
    requires room.Valid() && ValidDraws(draws1, 40) && ValidDraws(draws2, 40)
    requires |room.jugadores| > 0
    modifies room, room.jugadores, room.TrickPlayers()
    ensures room.Valid() && room.jugadores == old(room.jugadores)
    ensures r.NextTurn? || r.TrickOver? || r.RoundOver?
    ensures r.NextTurn? <==> old(|room.cartasEnJuego|) != |room.jugadores|
    ensures r.NextTurn? ==>
      && room.Seats() == old(room.Seats()) && room.Pointers() == old(room.Pointers())
      && r.seat == ExpectedSeat(room.turnoActual, |room.cartasEnJuego|, |room.jugadores|)
    ensures r.TrickOver? ==>
      && room.cartasEnJuego == [] && room.ronda == old(room.ronda)
      && (r.leader.Some? <==> room.turnoActual < |room.jugadores|)
      && (r.leader.Some? ==> r.leader.value == room.turnoActual)
      && TrickClosed(old(room.cartasEnJuego), r.winner, old(room.Ids()), old(room.Seats()), room.Seats(),
                     room.jugadores, old(room.turnoActual), room.turnoActual)
      && var g := old(room.cartasEnJuego)[r.winner].jugador;
         old(room.cartasEnJuego)[r.winner].carta.numero > -1 ==> g.manosGanadas == old(g.manosGanadas) + 1
    ensures r.TrickOver? ==>
      (room.dealerIndex, room.turnoPrediccionIndex, room.baraja)
      == old((room.dealerIndex, room.turnoPrediccionIndex, room.baraja))
    ensures r.RoundOver? <==>
      && old(|room.cartasEnJuego|) == |room.jugadores|
      && forall k :: 0 <= k < |old(room.Seats())| ==> old(room.Seats())[k].mano == []
    ensures r.RoundOver? ==>
      && room.ronda == old(room.ronda) + 1
      && room.dealerIndex == NextSeat(old(room.dealerIndex), |room.jugadores|)
      && room.cartasEnJuego == [] && room.turnoActual == 0
      && IsFirstMax(Ranks(old(room.cartasEnJuego)), r.winner)
      && room.RoundOpened(ScoreAll(TrickSeats(old(room.cartasEnJuego), r.winner, old(room.Seats()), room.jugadores)),
                          Shuffle(Baraja(), draws2), CardsToDeal(room.ronda))
  {
    var n := |room.jugadores|;
    if !room.ManoTerminada() {
      return NextTurn(ExpectedSeat(room.turnoActual, |room.cartasEnJuego|, n));
    }
    ghost var trick, seats0 := room.cartasEnJuego, room.Seats();
    var w := CerrarMano(room);
    TrickSeatsKeepHands(trick, w.value, seats0, room.jugadores);
    if room.RondaTerminada() {
      CerrarRonda(room, draws1, draws2);
      return RoundOver(w.value);
    }
    var leader := if room.turnoActual < n then Some(room.turnoActual) else None;
    return TrickOver(w.value, leader);
  }
}
