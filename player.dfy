/** One seat of a room (server/game/Player.js): identity, hand, prediction,
    tricks won this round and the running score. */
module Players {
  import opened Wrappers
  import opened Seqs
  import opened Deck

  /** The JavaScript value found in one field of a card payload sent by a client. */
  datatype Field = Absent | Num(n: int) | Str(s: string) | OtherValue

  /** A card payload: missing altogether (`null`/`undefined`) or an object. */
  datatype CardSpec = NoSpec | CardData(numero: Field, palo: Field)

  /** The payload has a number `numero` and a string `palo`. */
  predicate WellFormed(spec: CardSpec) {
    spec.CardData? && spec.numero.Num? && spec.palo.Str?
  }

  /** The card a well-formed payload names. */
  function Named(spec: CardSpec): Card
    requires WellFormed(spec)
  {
    Card(spec.numero.n, spec.palo.s)
  }

  /** A snapshot of a player's fields. */
  datatype PlayerView = PlayerView(
    id: string, nombre: string, mano: seq<Card>,
    prediccion: Option<int>, manosGanadas: nat, puntos: nat)

  function NewView(id: string, nombre: string): PlayerView {
    PlayerView(id, nombre, [], None, 0, 0)
  }

  /** The state resetearParaNuevaRonda leaves behind. */
  function ResetView(v: PlayerView): PlayerView {
    v.(mano := [], prediccion := None, manosGanadas := 0)
  }

  /** What Player.jugarCarta does to a hand: the card it hands back (if any)
      and the hand that remains. */
  function PlayFromHand(mano: seq<Card>, spec: CardSpec): (r: (Option<Card>, seq<Card>))
    ensures r.0.None? ==> r.1 == mano
    ensures r.0.Some? ==> WellFormed(spec) && r.0.value == Named(spec)
    ensures r.0.Some? ==> multiset(mano) == multiset(r.1) + multiset{r.0.value}
    ensures r.0.None? <==> !WellFormed(spec) || Named(spec) !in mano
  {
    if !WellFormed(spec) then (None, mano)
    else match IndexOf(mano, Named(spec))
      case None => (None, mano)
      case Some(i) =>
        RemoveAtFacts(mano, i);
        (Some(mano[i]), RemoveAt(mano, i))
  }

  class Player {
    const id: string
    const nombre: string
    var mano: seq<Card>
    var prediccion: Option<int>
    var manosGanadas: nat
    var puntos: nat

    function View(): PlayerView
      reads this
    {
      PlayerView(id, nombre, mano, prediccion, manosGanadas, puntos)
    }

    /** A new player holds no cards, has not predicted and has no points. */
    constructor (id: string, nombre: string)
      ensures View() == NewView(id, nombre)
    {
      this.id := id;
      this.nombre := nombre;
      mano := [];
      prediccion := None;
      manosGanadas := 0;
      puntos := 0;
    }

    /** Clears hand, prediction and tricks; keeps identity and points. */
    method ResetearParaNuevaRonda()
      modifies this
      ensures View() == ResetView(old(View()))
    {
      mano := [];
      prediccion := None;
      manosGanadas := 0;
    }

    /** Removes and returns the first card of the hand equal to the payload
        in both number and suit; a malformed or unmatched payload returns
        `None` and leaves the hand alone. */
    method JugarCarta(spec: CardSpec) returns (carta: Option<Card>)
      modifies this
      ensures (carta, mano) == PlayFromHand(old(mano), spec)
      ensures carta.Some? ==> exists i :: 0 <= i < |old(mano)| && old(mano)[i] == carta.value
                                          && mano == RemoveAt(old(mano), i)
      ensures View() == old(View()).(mano := mano)
    {
      if !WellFormed(spec) {
        return None;
      }
      var idx := IndexOf(mano, Named(spec));
      if idx.None? {
        return None;
      }
      var i := idx.value;
      carta := Some(mano[i]);
      mano := mano[..i] + mano[i + 1..];
    }
  }
}
