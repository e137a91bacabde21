/**
 * The Spanish 40-card deck of server/utils/Deck.js: its fixed construction
 * order and the Fisher-Yates shuffle, with the random source replaced by the
 * sequence of swap indices it would have produced.
 */
module Deck {
  import opened Seqs

  /** A card is a plain record `{numero, palo}`; equality is field by field. */
  datatype Card = Card(numero: int, palo: string)

  const Palos: seq<string> := ["oros", "copas", "espadas", "bastos"]
  const Numeros: seq<int> := [1, 2, 3, 4, 5, 6, 7, 10, 11, 12]

  /** The deck in construction order: suits outermost, ranks innermost. */
  function Baraja(): seq<Card> {
    seq(40, k requires 0 <= k < 40 => Card(Numeros[k % 10], Palos[k / 10]))
  }

  /** Position 10*s + r of a fresh deck holds rank r of suit s. */
  lemma BarajaAt(s: int, r: int)
    requires 0 <= s < |Palos| && 0 <= r < |Numeros|
    ensures |Baraja()| == |Palos| * |Numeros| == 40
    ensures Baraja()[10 * s + r] == Card(Numeros[r], Palos[s])
  {
    var k := 10 * s + r;
    assert k / 10 == s && k % 10 == r by {
      assert k == s * 10 + r;
    }
  }

  /** Building the deck card by card: the prefix up to rank r of suit s
      grows by that card. */
  lemma BarajaPrefix(s: int, r: int)
    requires 0 <= s < |Palos| && 0 <= r < |Numeros|
    ensures Baraja()[..10 * s + r + 1] == Baraja()[..10 * s + r] + [Card(Numeros[r], Palos[s])]
  {
    BarajaAt(s, r);
    var b := Baraja();
    assert b[..10 * s + r + 1] == b[..10 * s + r] + [b[10 * s + r]];
  }

  /** Every card of a fresh deck has a rank from Numeros and a suit from Palos. */
  lemma BarajaDomain(k: int)
    requires 0 <= k < |Baraja()|
    ensures Baraja()[k].numero in Numeros && Baraja()[k].palo in Palos
  {
  }

  /** No two cards of a fresh deck share both rank and suit. */
  lemma BarajaDistinct()
    ensures Distinct(Baraja())
  {
    var d := Baraja();
    forall i, j | 0 <= i < j < |d| ensures d[i] != d[j] {
      if i / 10 == j / 10 {
        assert i % 10 != j % 10 by {
          assert i == 10 * (i / 10) + i % 10;
          assert j == 10 * (j / 10) + j % 10;
        }
        assert d[i].numero == Numeros[i % 10] && d[j].numero == Numeros[j % 10];
      } else {
        assert d[i].palo == Palos[i / 10] && d[j].palo == Palos[j / 10];
      }
    }
  }

  /** crearBaraja: pushes the cards suit by suit, rank by rank. */
  method CrearBaraja() returns (d: seq<Card>)
    ensures d == Baraja()
  {
    d := [];
    for s := 0 to |Palos|
      invariant d == Baraja()[..10 * s]
    {
      for r := 0 to |Numeros|
        invariant d == Baraja()[..10 * s + r]
      {
        BarajaPrefix(s, r);
        d := d + [Card(Numeros[r], Palos[s])];
      }
    }
  }

  /** The shuffle's random source: draw k is the index swapped with position n-1-k. */
  predicate ValidDraws(draws: seq<int>, n: int) {
    |draws| >= n - 1 && forall k :: 0 <= k < n - 1 ==> 0 <= draws[k] <= n - 1 - k
  }

  function Swap<T>(s: seq<T>, i: int, j: int): (r: seq<T>)
    requires 0 <= i < |s| && 0 <= j < |s|
    ensures |r| == |s|
  {
    s[i := s[j]][j := s[i]]
  }

  /** Fisher-Yates from index i down to 1, each index swapped with its draw. */
  function FisherYates<T>(s: seq<T>, draws: seq<int>, i: int): seq<T>
    requires ValidDraws(draws, |s|) && i < |s|
    decreases i
  {
    if i <= 0 then s
    else FisherYates(Swap(s, i, draws[|s| - 1 - i]), draws, i - 1)
  }

  function Shuffle<T>(s: seq<T>, draws: seq<int>): seq<T>
    requires ValidDraws(draws, |s|)
  {
    FisherYates(s, draws, |s| - 1)
  }

  lemma SwapPermutes<T>(s: seq<T>, i: int, j: int)
    requires 0 <= i < |s| && 0 <= j < |s|
    ensures multiset(Swap(s, i, j)) == multiset(s)
  {
    var u := s[i := s[j]];
    assert multiset(u) == multiset(s) - multiset{s[i]} + multiset{s[j]};
    assert multiset(u[j := s[i]]) == multiset(u) - multiset{u[j]} + multiset{s[i]};
  }

  lemma SwapDistinct<T>(s: seq<T>, i: int, j: int)
    requires 0 <= i < |s| && 0 <= j < |s| && Distinct(s)
    ensures Distinct(Swap(s, i, j))
  {
    var t := Swap(s, i, j);
    forall a, b | 0 <= a < b < |t| ensures t[a] != t[b] {
      var a' := if a == j then i else if a == i then j else a;
      var b' := if b == j then i else if b == i then j else b;
      assert t[a] == s[a'] && t[b] == s[b'];
    }
  }

  /** The shuffle is a permutation: same length, same multiset, and a deck
      without repeated cards stays without repeated cards. */
  lemma {:induction false} FisherYatesPermutes<T>(s: seq<T>, draws: seq<int>, i: int)
    requires ValidDraws(draws, |s|) && i < |s|
    ensures |FisherYates(s, draws, i)| == |s|
    ensures multiset(FisherYates(s, draws, i)) == multiset(s)
    ensures Distinct(s) ==> Distinct(FisherYates(s, draws, i))
    decreases i
  {
    if i > 0 {
      var t := Swap(s, i, draws[|s| - 1 - i]);
      SwapPermutes(s, i, draws[|s| - 1 - i]);
      if Distinct(s) { SwapDistinct(s, i, draws[|s| - 1 - i]); }
      FisherYatesPermutes(t, draws, i - 1);
    }
  }

  /** Arrays of length 0 or 1 come back unchanged, whatever the draws. */
  lemma ShuffleShort<T>(s: seq<T>, draws: seq<int>)
    requires |s| <= 1 && ValidDraws(draws, |s|)
    ensures Shuffle(s, draws) == s
  {
  }

  /** mezclar: visits i from the last index down to 1 and swaps a[i] with
      a[j], j the draw for i; returns the array it was given. */
  method Mezclar<T>(a: array<T>, draws: seq<int>) returns (r: array<T>)
    requires ValidDraws(draws, a.Length)
    modifies a
    ensures r == a
    ensures a[..] == Shuffle(old(a[..]), draws)
  {
    var i := a.Length - 1;
    while i > 0
      invariant -1 <= i < a.Length
      invariant a.Length > 0 ==> i >= 0
      invariant ValidDraws(draws, |a[..]|)
      invariant FisherYates(a[..], draws, i) == Shuffle(old(a[..]), draws)
    {
      var j := draws[a.Length - 1 - i];
      ghost var before := a[..];
      var t := a[i];
      a[i] := a[j];
      a[j] := t;
      assert a[..] == Swap(before, i, j);
      i := i - 1;
    }
    r := a;
  }
}
