/** The board produced by the builder: stock (`mazo`), waste (`descarte`),
    four foundations and the tableau columns. The engine changes the piles
    in place, so they are mutable fields. */
module Tablero {
  import opened Secuencias
  import opened Cartas
  import opened Iteradores

  class TableroSolitario {
    var mazo: seq<Carta>
    var descarte: seq<Carta>
    var fundaciones: seq<seq<Carta>>
    var tableau: seq<seq<Carta>>
    const fabrica: Fabrica

    /** Takes the piles as given. */
    constructor (mazo: seq<Carta>, descarte: seq<Carta>, fundaciones: seq<seq<Carta>>,
                 tableau: seq<seq<Carta>>, fabrica: Fabrica)
      ensures this.mazo == mazo && this.descarte == descarte
      ensures this.fundaciones == fundaciones && this.tableau == tableau
      ensures this.fabrica == fabrica
    {
      this.mazo := mazo;
      this.descarte := descarte;
      this.fundaciones := fundaciones;
      this.tableau := tableau;
      this.fabrica := fabrica;
    }

    /** A new cursor at column 0, card 0 over the current tableau. */
    method CreateIterator() returns (it: TableauIterator)
      ensures fresh(it) && it.Valid() && it.tableau == tableau
      ensures it.restantes == Aplanar(tableau)
    {
      it := new TableauIterator(tableau);
    }

    /** A new face-up filter over a new cursor: it yields the face-up cards
        of the column-major order. */
    method CreateCartasVolteadasIterator() returns (it: CartasVolteadasIterator)
      ensures fresh(it) && fresh(it.base) && it.Valid() && it.base.tableau == tableau
      ensures it.Restantes() == Volteadas(Aplanar(tableau))
    {
      var base := CreateIterator();
      it := new CartasVolteadasIterator(base);
    }

    /** Appends to column 0 when there is one; otherwise does nothing. */
    method AddCarta(carta: Carta)
      modifies this
      ensures mazo == old(mazo) && descarte == old(descarte) && fundaciones == old(fundaciones)
      ensures old(tableau) == [] ==> tableau == []
      ensures old(tableau) != [] ==> tableau == old(tableau)[0 := old(tableau)[0] + [carta]]
      ensures old(tableau) != [] ==>
        Aplanar(tableau) == old(tableau)[0] + [carta] + Aplanar(old(tableau)[1..])
      ensures |Aplanar(tableau)| == |Aplanar(old(tableau))| + (if old(tableau) == [] then 0 else 1)
    {
      if tableau != [] {
        tableau := tableau[0 := tableau[0] + [carta]];
        assert tableau[1..] == old(tableau)[1..];
      }
    }

    /** The card at position `index` of the column-major order, walking a
        cursor; `null` past the end. A negative index behaves like 0. */
    method GetCarta(index: int) returns (r: Carta?)
      ensures 0 <= index < |Aplanar(tableau)| ==> r == Aplanar(tableau)[index]
      ensures index < 0 && Aplanar(tableau) != [] ==> r == Aplanar(tableau)[0]
      ensures index >= |Aplanar(tableau)| ==> r == null
      ensures Aplanar(tableau) == [] ==> r == null
    {
      var it := CreateIterator();
      var i := 0;
      var hay := it.HasNext();
      while hay && i < index
        invariant it.Valid() && it.tableau == tableau
        invariant 0 <= i <= |Aplanar(tableau)|
        invariant index >= 0 ==> i <= index
        invariant index < 0 ==> i == 0
        invariant Aplanar(tableau)[..i] + it.restantes == Aplanar(tableau)
        invariant hay <==> it.restantes != []
        decreases |it.restantes|
      {
        var _ := it.Next();
        i := i + 1;
        hay := it.HasNext();
      }
      hay := it.HasNext();
      if hay {
        var siguiente := it.Next();
        r := siguiente.value;
      } else {
        r := null;
      }
    }

    /** The number of tableau cards: the sum of the column lengths, which is
        also the number of cards a full cursor pass yields. Stock, waste and
        foundations are not counted. */
    method Size() returns (total: int)
      ensures total == SumaLongitudes(tableau)
      ensures total == |Aplanar(tableau)|
    {
      total := 0;
      for k := 0 to |tableau|
        invariant total == SumaLongitudes(tableau[..k])
      {
        assert tableau[..k + 1][..k] == tableau[..k];
        total := total + |tableau[k]|;
      }
      assert tableau[..|tableau|] == tableau;
      LongitudAplanar(tableau);
    }
  }
}
