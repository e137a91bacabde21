# estrategiaposta — a Dafny model of the room game engine

The server of this trick-prediction card game keeps one `GameRoom` per room
code. Players sit at a table up to the room's `maxJugadores` (5 unless the
creator asks for another number) and play round after round. Each round deals
the number of cards given by the pattern 1-3-5-7-5-3-1, repeating from round
8 on, taken from a shuffled 40-card Spanish deck. Players then predict, in reverse seating order
ending at the dealer, how many tricks they will win. The dealer may not choose
the value that would make the predictions add up to the number of cards dealt.
The players then play tricks: the highest number wins, with no trump suit. At
the end of the round, a player whose prediction was exactly right scores
5 plus the tricks won.

The model follows the source's own structure:

| Dafny file | module | models |
|---|---|---|
| `deck.dfy` | `Deck` | `server/utils/Deck.js`: the deck in construction order, and the Fisher–Yates shuffle as an in-place method on an `array`, proved against a sequence function |
| `player.dfy` | `Players` | `server/game/Player.js`: class `Player` with its mutable fields, the reset, and exact-match card removal |
| `rules.dfy` | `Rules` | the value-level rules of `server/game/GameManager.js`: deal pattern, bid options, order of bidding, pointer re-basing, the deal loop in closed form, trick and game winners, scoring |
| `room.dfy` | `Rooms` | class `GameRoom` (seats, dealing, bidding, trick play, scoring, round advance) and class `Registry`, the `salas` map |
| `server.dfy` | `Server` | the turn rules of `server/index.js`: expected seat, first leader, winner leads, auto-bid, host-only start, and the play handler with its round end |
| `seqs.dfy`, `arith.dfy`, `wrappers.dfy` | `Seqs`, `Arith`, `Wrappers` | `findIndex`, `splice(i, 1)`, distinctness; division with remainder; `Option` |

How the source is represented:

- Randomness becomes a parameter. `mezclar` takes a sequence of swap indices
  `draws`, and draw `k` is the index `j` in `0..i` for position
  `i = length-1-k`. The room code is a constructor parameter.
- The `emit` callback of `registrarPrediccion` is modelled only by the
  `closed` out-parameter. It is true exactly when `'predicciones_cerradas'`
  would be emitted.
- A client's bid arrives as `BidInput`: either a value that `Number(...)`
  turns into an integer, or one it does not.
- A card payload arrives as `CardSpec`: each field is absent, a number, a
  string or something else.
- `cartasEnJuego` holds references to `Player` objects, as in the source. A
  player removed in the middle of a trick keeps its entry, and `evaluarMano`
  may credit that detached object.

Where the specification of the game and the code differ, the model follows
the code:

- Starting a game checks only that the caller is the host. No minimum of two
  players is enforced (`server/index.js:150`; `estaListoParaJugar` is never
  called).
- `jugarCarta` does no turn check. The handler checks the seat
  `(turnoActual + cartasEnJuego.length) mod n` (`server/index.js:239-241`).
  There is no turn index that advances card by card.
- Trick numbers can tie across suits (a 7 of oros and a 7 of copas). With the
  strict `>` in `evaluarMano` and in the handler's loop, the earlier-played
  card wins.
- There is no 101-point threshold. `jugadorGanador` names a winner from round
  7 on, but nothing in `server/index.js` calls it, so the game never ends:
  after round 7 the play handler deals round 8 with the pattern's first count
  (`server/index.js:280-288`), and so on.
- `maxJugadores` comes from the client (`server/index.js:91`) and nothing
  bounds it. With more than five seats a 7-card round needs more than 40
  cards; the deal loop then skips the seats it reaches after the deck is
  empty, so some hands are short. `Rules.RoundDealFits` is stated for the
  deals whose cards fit in the deck, `Rules.FiveSeatsFit` shows that every
  round does with at most five seats, and `Rules.DealAll` models the short
  deal as it is.
- `eliminarJugador` does not re-base `turnoActual`.
- At the end of a round the room deals twice: `prepararSiguienteRonda`
  already calls `iniciarRonda`, and the handler calls it again.
  `Rooms.RedealtTwice` shows that the first deal leaves no trace in the seats.
- When the bidding timer closes the bidding, `turnoActual` is not set to the
  seat after the dealer; only a manual bid sets it.

## Model

| member | source | states |
|---|---|---|
| Deck.BarajaAt | server/utils/Deck.js:7-11 | the deck has 40 cards and position 10·s + r holds rank NUMEROS[r] of suit PALOS[s] |
| Deck.BarajaDomain | server/utils/Deck.js:2-11 | every card of a fresh deck has a rank from NUMEROS and a suit from PALOS |
| Deck.BarajaDistinct | server/utils/Deck.js:7-11 | no two cards of a fresh deck share both rank and suit |
| Deck.BarajaPrefix | server/utils/Deck.js:7-11 | each push extends the built prefix by the next card of the deck |
| Deck.CrearBaraja | server/utils/Deck.js:5-13 | the nested push loops build exactly the 40-card deck in suit-major order |
| Deck.SwapPermutes | server/utils/Deck.js:22 | a destructuring swap keeps the multiset of elements |
| Deck.FisherYatesPermutes | server/utils/Deck.js:19-25 | the shuffle keeps length and multiset, and a deck without repeats stays without repeats |
| Deck.ShuffleShort | server/utils/Deck.js:20 | arrays of length 0 or 1 come back unchanged whatever the draws |
| Deck.Mezclar | server/utils/Deck.js:19-25 | the in-place descending swap loop leaves the array equal to the shuffle of its old contents, and returns the same array |
| Seqs.IndexOf | server/game/GameManager.js:44 | `findIndex`: None exactly when the value is absent, otherwise the first position holding it |
| Seqs.IndexOfDistinct | server/game/GameManager.js:181 | in a sequence without repeats, looking up the element at position i finds i |
| Seqs.RemoveAtFacts | server/game/Player.js:28 | `splice(i, 1)` shortens by one, keeps the other elements in order, and old multiset = new multiset + the removed element |
| Seqs.RemoveAtDistinct | server/game/GameManager.js:46 | removing a seat from seats without repeats leaves seats without repeats |
| Players.PlayFromHand | server/game/Player.js:18-30 | a malformed payload or an absent card gives nothing and the same hand; otherwise it gives the named card, and old hand = rest + card as multisets |
| Players.Player.constructor | server/game/Player.js:3-10 | a new player has an empty hand, no prediction, 0 tricks and 0 points |
| Players.Player.ResetearParaNuevaRonda | server/game/Player.js:12-16 | clears hand, prediction and tricks; keeps id, name and points |
| Players.Player.JugarCarta | server/game/Player.js:18-30 | removes the first hand card equal to the payload in both fields and returns it, the rest in order; otherwise returns None with the hand unchanged |
| Rules.CardsForRound | server/game/GameManager.js:86-88 | round 0 has no card count; every other round deals one of 1, 3, 5 or 7 cards |
| Rules.PatternPeriodic | server/game/GameManager.js:26 | the pattern repeats every 7 rounds and is symmetric around round 4 |
| Rules.Range | server/game/GameManager.js:137 | `Array.from` gives 0..n-1 ascending |
| Rules.Without | server/game/GameManager.js:151 | `filter(v => v !== x)` keeps exactly the values other than x, still ascending |
| Rules.ValidBidOptions | server/game/GameManager.js:135-152 | the options are, in ascending order, exactly 0..total less the dealer's forbidden value when the caller is the dealer bidding last |
| Rules.OthersWhenAbsent | server/game/GameManager.js:146-148 | when the id is not seated, the others' sum is the whole sum of predictions |
| Rules.SumBids | server/game/GameManager.js:128-133 | unset predictions count as nothing: a table with no prediction sums to 0, and non-negative predictions give a non-negative sum |
| Rules.SumAfterBid | server/game/GameManager.js:128-133 | after seat k bids v, the sum of predictions is the others' sum plus v |
| Rules.DealerBidNeverCompletesTotal | server/game/GameManager.js:146-151 | any option the dealer may choose leaves the predictions not adding up to the cards dealt |
| Rules.OptionsCount | server/game/GameManager.js:135-152 | a non-last bidder has total+1 options; the dealer has one fewer when the forbidden value is in range |
| Rules.StartingBidder | server/game/GameManager.js:101-106 | the first bidder is a seat index, or 0 in an empty room |
| Rules.PreviousSeat | server/game/GameManager.js:197-198 | the bidding pointer stepped back stays a seat index |
| Rules.NextSeat | server/game/GameManager.js:262 | the dealer stepped forward stays a seat index |
| Rules.BidderAfterIs | server/game/GameManager.js:101-103 | after k accepted bids the pointer is at (dealer-1-k) mod n |
| Rules.DealerBidsLast | server/game/GameManager.js:99-100 | the first n bidders are n different seats, and the dealer is the n-th and not earlier |
| Rules.PartialPassStep | server/game/GameManager.js:113-116 | serving seat j pops the deck's last card into seat j's hand, if a card is left |
| Rules.PassFacts | server/game/GameManager.js:113-116 | one pass over n seats with n cards left gives seat k the k-th card from the end |
| Rules.PassSizes | server/game/GameManager.js:112-116 | after one pass of a deal of p passes, p-1 passes still fit in the deck |
| Rules.PassSeat | server/game/GameManager.js:113-116 | seat k's hand after one pass gains exactly the k-th card from the end |
| Rules.DealAll | server/game/GameManager.js:112-117 | p passes round the table, each popping one card per seat while cards are left; one hand per seat (closed form in Rules.DealAllExact) |
| Rules.DealAllRest | server/game/GameManager.js:112-117 | p passes over n seats take exactly the last p·n cards of the deck |
| Rules.DealAllStep | server/game/GameManager.js:112-117 | a deal of p passes is one pass followed by p-1 passes, seat by seat |
| Rules.DealAllExact | server/game/GameManager.js:112-117 | after p passes seat k holds its old hand plus its column of the deck |
| Rules.ColumnLength | server/game/GameManager.js:112-117 | a column of p passes has p cards |
| Rules.ColumnAt | server/game/GameManager.js:112-117 | card q of seat k's column is the one popped at step q·n + k |
| Rules.ColumnsDisjoint | server/game/GameManager.js:112-117 | two different slots of the deal take different cards of a deck without repeats |
| Rules.DealtColumn | server/game/GameManager.js:109-117 | dealt to empty hands, seat k holds exactly its column |
| Rules.DealtSlots | server/game/GameManager.js:109-117 | dealt to empty hands, two different slots hold different cards |
| Rules.DealtCardsDistinct | server/game/GameManager.js:109-117 | every seat gets p cards, no card goes to two places, and p·n cards leave the deck |
| Rules.RoundDealFits | server/game/GameManager.js:86-117 | when count·n ≤ 40, every seat gets the round's pattern count of cards, no card goes to two places, and the deck keeps 40 − count·n |
| Rules.FiveSeatsFit | server/game/GameManager.js:26 | with at most five seats every round's count·n is at most 40 |
| Rules.EmptyHands | server/game/GameManager.js:109 | n empty hands after the reset |
| Rules.FirstMaxUnique | server/game/GameManager.js:237-242 | the first maximum is unique, so both winner loops name the same entry |
| Rules.TrickWinner | server/game/GameManager.js:234-242 | `evaluarMano`'s loop finds no winner only when every number is ≤ -1, otherwise the first entry with the largest number |
| Rules.MaxFrom | server/game/GameManager.js:271-274 | the reduce keeps the first maximum of the points |
| Rules.BestIndex | server/game/GameManager.js:271-274 | the winner's seat has the most points, ties going to the earlier seat |
| Rules.RoundDelta | server/game/GameManager.js:254-255 | a player earns points exactly when the prediction equals the tricks won, and then 5 plus the tricks |
| Rules.ResultadoMano | server/game/GameManager.js:301-309 | one report row per seat |
| Rules.ReportMatchesScoring | server/game/GameManager.js:301-309 | the reported gain is what scoring adds, it is positive exactly when the prediction was right, and scores never go down |
| Rooms.IdsOfRemoveAt | server/game/GameManager.js:46 | removing a seat removes its id at the same position |
| Rooms.PointerAfterRemoval | server/game/GameManager.js:49-60 | a re-based pointer stays a seat index, and becomes 0 when the room empties |
| Rooms.RebasedSeat | server/game/GameManager.js:48-56 | after a removal a re-based pointer names the same player, or the previous one when its own seat was removed |
| Rooms.ClosingBid | server/game/GameManager.js:172-192 | an accepted bid by the dealer closes the bidding with a sum of predictions different from the cards dealt |
| Rooms.BarajaMezclada | server/game/GameManager.js:97 | `mezclar(crearBaraja())` is the shuffle of the fresh deck |
| Rooms.HandsOfUpdate | server/game/GameManager.js:115 | pushing into one seat's hand changes only that hand |
| Rooms.SameButHandsTrans | server/game/GameManager.js:112-117 | deal steps that change only hands compose |
| Rooms.RedealtTwice | server/index.js:287-288 | two deals in a row leave the seats as the second deal alone would |
| Rooms.GameRoom.Ids | server/game/GameManager.js:38 | the ids of the seats, in seating order |
| Rooms.GameRoom.Seats | server/game/GameManager.js:69-78 | the seats' state, in seating order |
| Rooms.GameRoom.constructor | server/game/GameManager.js:13-33 | a new room seats only its host, in round 0, with every pointer at 0 and an empty deck and table |
| Rooms.GameRoom.EsHost | server/game/GameManager.js:65 | the caller is the id that created the room |
| Rooms.GameRoom.AgregarJugador | server/game/GameManager.js:36-41 | a full room answers 'Sala llena'; a seated id changes nothing; anyone else gets one fresh seat at the end, never beyond maxJugadores |
| Rooms.GameRoom.EliminarJugador | server/game/GameManager.js:43-63 | an absent id returns null and changes nothing; otherwise that seat is spliced out and the dealer and bidding pointers are re-based; turnoActual is left alone |
| Rooms.GameRoom.IniciarPartida | server/game/GameManager.js:90-93 | round 1 and its deal |
| Rooms.GameRoom.IniciarRonda | server/game/GameManager.js:95-120 | the table cleared, bidding opened one seat before the dealer, turnoActual 0, every seat reset with points kept and dealt its cards from the shuffled deck, and the deck holding the rest |
| Rooms.GameRoom.AbrirRonda | server/game/GameManager.js:96-120 | the same, for an already shuffled deck |
| Rooms.GameRoom.ResetAndDeal | server/game/GameManager.js:108-117 | the reset then the deal leave each seat reset with its column and the deck with the rest |
| Rooms.GameRoom.ResetSeats | server/game/GameManager.js:109 | every seat is reset and nothing else changes |
| Rooms.GameRoom.DealCards | server/game/GameManager.js:112-117 | the nested deal loop changes only hands and the deck, as DealAll |
| Rooms.GameRoom.DealOnePass | server/game/GameManager.js:113-116 | one pass of the inner loop, as DealPass |
| Rooms.GameRoom.ServeSeat | server/game/GameManager.js:114-115 | `pop` then `push` if a card was left |
| Rooms.GameRoom.DealTo | server/game/GameManager.js:114-115 | the deck's last card moves to the end of seat j's hand |
| Rooms.GameRoom.OpcionesValidasPrediccion | server/game/GameManager.js:135-152 | ascending, and v is an option exactly when the round has a card count, 0 ≤ v ≤ count, and v is not the dealer's forbidden value count − others' sum |
| Rooms.GameRoom.EsTurnoPrediccion | server/game/GameManager.js:123-126 | `getJugadorTurnoPrediccion` names a seated id, the one at the bidding pointer |
| Rooms.GameRoom.EsTurnoPrediccionSeat | server/game/GameManager.js:123-126 | with distinct ids, the bidding turn is an id's exactly when its seat is the bidding pointer |
| Rooms.GameRoom.TodosPredijeron | server/game/GameManager.js:154-156 | every seat has a prediction |
| Rooms.GameRoom.RegistrarPrediccion | server/game/GameManager.js:158-211 | accepted exactly when the caller's turn, an integer and one of the options; refused with nothing changed; accepted sets only that seat's prediction, closes iff the bidder was the dealer, else steps the pointer back; a close never makes the sum equal the cards dealt |
| Rooms.GameRoom.AplicarPrediccion | server/game/GameManager.js:181-198 | the accepted branch: the bidder's seat gets the prediction, then close or step back |
| Rooms.GameRoom.SetPrediccion | server/game/GameManager.js:184 | only seat k's prediction changes |
| Rooms.GameRoom.SeatIdsDistinct | server/game/GameManager.js:38-39 | seats have distinct ids |
| Rooms.GameRoom.JugarCarta | server/game/GameManager.js:214-226 | refused (nothing changed) for an unknown player, one already on the table, or a card not in hand; otherwise the card moves from the hand to the end of the table and no pointer moves |
| Rooms.GameRoom.ManoTerminada | server/game/GameManager.js:228-230 | true exactly when the table holds as many entries as there are seats; Server.ExpectedSeatsDistinct and Server.TurnsCoverSeats show that the n turns of a trick ask n distinct seats, together every seat |
| Rooms.GameRoom.RondaTerminada | server/game/GameManager.js:248-250 | the round is over when no seat holds a card |
| Rooms.GameRoom.EvaluarMano | server/game/GameManager.js:232-246 | only the first entry with the largest number credits its player with one trick, and the table is cleared |
| Rooms.GameRoom.EvaluarPredicciones | server/game/GameManager.js:252-258 | every seat is scored (+5+tricks iff the prediction was right) and gains what getResultadoMano reports |
| Rooms.GameRoom.PrepararSiguienteRonda | server/game/GameManager.js:260-264 | round + 1, dealer one seat on, and a new deal |
| Rooms.GameRoom.JugadorGanador | server/game/GameManager.js:267-277 | a winner exactly from round 7 on in a non-empty room: the seat with the most points, ties to the earlier seat |
| Rooms.GameRoom.GetResultadoMano | server/game/GameManager.js:301-309 | one row per seat with its name and prediction; the row's gain is what scoring adds, and it is positive exactly when the prediction equals the tricks won |
| Rooms.Registry.constructor | server/game/GameManager.js:6 | the registry starts empty |
| Rooms.Registry.CreateGameRoom | server/game/GameManager.js:322-326 | a fresh room seating only its host is registered under its code |
| Rooms.Registry.GetGameRoom | server/game/GameManager.js:327 | a room exactly when the code is registered |
| Rooms.Registry.EliminarSala | server/game/GameManager.js:328 | the code is forgotten and every other room is kept |
| Server.ExpectedSeat | server/index.js:239-241 | the expected seat is a seat index |
| Server.ExpectedSeatStep | server/index.js:310-311 | the leader plays first and each card moves the turn one seat on |
| Server.ExpectedSeatsDistinct | server/index.js:239-241 | within one trick no seat is asked twice |
| Server.TurnsCoverSeats | server/index.js:239-241 | every seat is the expected one at some point of the n turns of a trick |
| Server.FirstLeaderFollowsDealer | server/index.js:211-212 | the first leader, NextSeat of the dealer, steps back to the dealer and is not the dealer when two or more are seated |
| Server.AutoBid | server/index.js:40-41 | with no options it sends a non-integer, otherwise one of the options |
| Server.AutoBidIsSmallestOption | server/index.js:40-41 | in any round the timer's bid is one of the options and the smallest of them |
| Server.LeaderEntry | server/index.js:259-268 | the handler's loop finds the first entry with the largest number, and an entry for any non-empty trick |
| Server.OnIniciarPartida | server/index.js:148-155 | only the host starts the game (round 1, dealt); anyone else changes nothing |
| Server.OnEnviarPrediccion | server/index.js:178-217 | accepted exactly as registrarPrediccion accepts; a refusal changes nothing; an accepted bid sets only that seat's prediction and closes iff the bidder was the dealer, else steps the pointer back; a close keeps the sum of predictions different from the cards dealt and hands the lead to the seat after the dealer; otherwise turnoActual is unchanged |
| Server.OnAutoPrediccion | server/index.js:39-54 | sends AutoBid of the options, accepted exactly when registrarPrediccion accepts it and always on that player's turn in a round; an accepted bid sets only that seat's prediction and closes at the dealer, with a sum different from the cards dealt, or steps the pointer back; turnoActual never moves |
| Server.WinnerSeat | server/index.js:273-275 | the seat found for the winner holds its id and is the first such seat, and there is one exactly when the id is non-empty and seated |
| Server.WinnerCredited | server/game/GameManager.js:232-246 | evaluarMano's contract at the handler's winner: the winner's seat gains a trick and every other seat is unchanged, or nothing changes when the number is at most -1 |
| Server.CerrarMano | server/index.js:257-278 | the handler's winner is the first entry with the largest number; its player gains a trick, every other seat is unchanged, and the seat holding its id, if any, leads the next trick |
| Server.PasarTurnoAlGanador | server/index.js:273-276 | the winner's seat, found by id, becomes turnoActual; an empty or unseated id leaves it; the seats are untouched |
| Server.CerrarRonda | server/index.js:280-288 | scoring before the deal; round and dealer advance once; the seats are the scored seats with the second deal |
| Server.OnJugarCarta | server/index.js:233-316 | an unseated or out-of-turn play, or one jugarCarta refuses, changes nothing; otherwise the card leaves the player's hand and is appended to the table as that seat's entry; the next seat is announced exactly when the trick is not yet complete; the round closes exactly when the trick is complete and every hand is empty, and then the round's seats are the trick's credited seats scored and dealt again; otherwise the trick is closed (winner credited, every other seat unchanged, winner's seat leads); while the round goes on, the dealer, the bidding pointer and the deck are unchanged |
| Server.JugarEnTurno | server/index.js:246-316 | the play after the turn check: refused exactly when jugarCarta refuses; otherwise the same hand and table change, the same choice of outcome, the same trick close and the same round close as OnJugarCarta, with the dealer, the bidding pointer and the deck unchanged while the round goes on |
| Server.TrasJugada | server/index.js:256-315 | the next seat exactly while the trick is open; the round closes exactly when the trick is complete and every hand is empty, with the credited seats scored and dealt again, round and dealer one on; otherwise the trick is closed with the winner credited, every other seat unchanged, the winner's seat leading, and the dealer, the bidding pointer and the deck unchanged |

## Left out

- `server/storage/firestore.js` (a Firestore store never called from the game flow), `server/logger.js` (console output) and `server/game/Card.js` (unused; cards are the `Card` datatype).
- Socket plumbing in `server/index.js`: every `emit`, `join` and `leave`, the health endpoint, the chat relay, name validation, and the `withSala` lookup and error catching. The handlers take the room itself.
- The `crear_sala`, `unirse_sala`, `salir_sala` and `disconnect` handlers. They call `createGameRoom`, `agregarJugador`, `eliminarJugador` and `eliminarSala`, which are modelled, and add two things that are not:
  - `unirse_sala` repeats the fullness check itself, against `sala.maxJugadores || 5` (`server/index.js:111`). With a `maxJugadores` of 0 or missing, the handler uses 5, while `agregarJugador` compares against the value as stored.
  - `disconnect` walks the rooms and removes the socket only from the first room that seats it (the `break` at `server/index.js:360`). A socket seated in two rooms stays seated in the second.
- The bidding timers (`setTimeout`/`clearTimeout`): asynchrony is not modelled. The timer's callback is `Server.OnAutoPrediccion`, and the player it acts for is a parameter.
- `Math.random`: the room code is a parameter, and the shuffle takes its swap indices as `draws`.
- Deck.Mezclar: requires every draw in `0..i`. An `rng` outside `[0, 1)`, which would give an index out of range, is not modelled.
- Read-only payload builders: `getPuntajes`, `getEstadoRonda`, `getJugadasActuales` and `getManoJugador`. `getJugadores` is `Seats`.
- `estaListoParaJugar` (`server/game/GameManager.js:316-318`): nothing in `server/index.js` calls it, and the `iniciar_partida` handler starts a room with any number of seats.
- JavaScript numbers are doubles. The model uses unbounded integers, and scores and counts stay far below 2^53.
- `Number(cantidad)`: the conversion itself is not modelled, only whether it yields an integer (`BidInput`).
- Rooms.GameRoom.EvaluarMano: states the credit only for entries numbered above -1. An entry numbered -1 or less cannot come from the deck.
- Server.JugarEnTurno: states the winner's credit through the seats only. A winner removed mid-trick is no longer seated, and its credit is stated by `Server.TrasJugada` and `Server.CerrarMano`.
- Server.OnJugarCarta: like `Server.JugarEnTurno`, states the winner's credit through the seats only.
- Server.CerrarMano: states the new leader by id. A player removed mid-trick and re-seated under the same id would be credited as the old object but lead as the new seat.
