/** Cursors over the tableau: a column-major cursor that skips empty columns,
    and a face-up filter over it with one card of lookahead. */
module Iteradores {
  import opened Wrappers
  import opened Secuencias
  import opened Cartas

  /** The face-up cards of `s`, in order. */
  function Volteadas(s: seq<Carta>): seq<Carta>
    reads s
  {
    if s == [] then []
    else if s[0].volteada then [s[0]] + Volteadas(s[1..])
    else Volteadas(s[1..])
  }

  /** `x` is in the filter of `s` exactly when it is a face-up element of `s`. */
  lemma {:induction false} EnVolteadas(s: seq<Carta>, x: Carta)
    ensures x in Volteadas(s) <==> x in s && x.volteada
  {
    if s != [] {
      EnVolteadas(s[1..], x);
      assert s == [s[0]] + s[1..];
    }
  }

  /** One step of the filter, on a sequence given as head and tail. */
  lemma VolteadasPaso(c: Carta, resto: seq<Carta>)
    ensures c.volteada ==> Volteadas([c] + resto) == [c] + Volteadas(resto)
    ensures !c.volteada ==> Volteadas([c] + resto) == Volteadas(resto)
  {
    assert ([c] + resto)[1..] == resto;
  }

  lemma {:induction false} VolteadasConcat(a: seq<Carta>, b: seq<Carta>)
    ensures Volteadas(a + b) == Volteadas(a) + Volteadas(b)
  {
    if a != [] {
      assert (a + b)[1..] == a[1..] + b;
      VolteadasConcat(a[1..], b);
    } else {
      assert a + b == b;
    }
  }

  /** Column-major cursor (`columnaActual`, `cartaActual`) over a tableau.
      `inicios[c]` is the number of cards in the columns before `c`, and
      `restantes` the cards the cursor has still to produce. */
  class TableauIterator {
    const tableau: seq<seq<Carta>>
    ghost const inicios: seq<nat>
    var columnaActual: nat
    var cartaActual: nat
    ghost var restantes: seq<Carta>

    /** Each entry of `inicios` is the length of the flattening of the columns
        before it. */
    ghost predicate IniciosCorrectos()
    {
      && |inicios| == |tableau| + 1
      && forall c {:trigger Aplanar(tableau[..c])} :: 0 <= c <= |tableau| ==>
           inicios[c] == |Aplanar(tableau[..c])|
    }

    /** Number of cards before the cursor in column-major order. */
    ghost function Posicion(): nat
      reads this
      requires columnaActual < |inicios|
    {
      inicios[columnaActual] + cartaActual
    }

    /** The cursor lies inside the tableau, and the cards before it followed
        by the remaining ones make up the whole flattening. */
    ghost predicate Valid()
      reads this
    {
      && IniciosCorrectos()
      && columnaActual <= |tableau|
      && (columnaActual < |tableau| ==> cartaActual <= |tableau[columnaActual]|)
      && (columnaActual == |tableau| ==> cartaActual == 0)
      && Posicion() <= |Aplanar(tableau)|
      && Aplanar(tableau)[..Posicion()] + restantes == Aplanar(tableau)
    }

    constructor (tableau: seq<seq<Carta>>)
      ensures this.tableau == tableau && Valid()
      ensures restantes == Aplanar(tableau)
    {
      this.tableau := tableau;
      inicios := seq(|tableau| + 1, c requires 0 <= c <= |tableau| => |Aplanar(tableau[..c])|);
      columnaActual := 0;
      cartaActual := 0;
      restantes := Aplanar(tableau);
      new;
      assert Aplanar(tableau[..0]) == [];
    }

    /** Advances past exhausted columns; true iff a card remains. Repeated calls
        skip no card. */
    method HasNext() returns (r: bool)
      requires Valid()
      modifies this
      ensures Valid() && restantes == old(restantes)
      ensures r <==> restantes != []
      ensures r ==> columnaActual < |tableau| && cartaActual < |tableau[columnaActual]|
    {
      while columnaActual < |tableau|
        invariant Valid() && restantes == old(restantes)
        decreases |tableau| - columnaActual
      {
        if cartaActual < |tableau[columnaActual]| {
          AplanarEn(tableau, columnaActual, cartaActual);
          return true;
        }
        AplanarPrefijo(tableau, columnaActual);
        columnaActual := columnaActual + 1;
        cartaActual := 0;
      }
      assert tableau[..columnaActual] == tableau;
      assert inicios[columnaActual] == |Aplanar(tableau[..columnaActual])|;
      return false;
    }

    /** The next card in column-major order; `None` where the Java code throws
        `NoSuchElementException`. */
    method Next() returns (r: Option<Carta>)
      requires Valid()
      modifies this
      ensures Valid()
      ensures old(restantes) == [] ==> r == None && restantes == []
      ensures old(restantes) != [] ==> r.Some? && old(restantes) == [r.value] + restantes
      ensures r.Some? ==> r.value in Aplanar(tableau)
    {
      var hay := HasNext();
      if !hay {
        return None;
      }
      AplanarEn(tableau, columnaActual, cartaActual);
      PrefijoAvanza(Aplanar(tableau), Posicion(), restantes);
      r := Some(tableau[columnaActual][cartaActual]);
      cartaActual := cartaActual + 1;
      restantes := restantes[1..];
    }

    /** Rewinds to column 0, card 0: a new pass produces the whole flattening. */
    method Reset()
      requires Valid()
      modifies this
      ensures Valid() && restantes == Aplanar(tableau)
    {
      columnaActual := 0;
      cartaActual := 0;
      restantes := Aplanar(tableau);
      assert Aplanar(tableau[..0]) == [];
    }
  }

  /** Face-up filter over a base cursor; `siguienteCarta` caches the next
      face-up card (`null` when there is none). */
  class CartasVolteadasIterator {
    const base: TableauIterator
    var siguienteCarta: Carta?

    ghost predicate Valid()
      reads this, base, Aplanar(base.tableau)
    {
      && base.Valid()
      && (siguienteCarta == null ==> base.restantes == [])
      && (siguienteCarta != null ==> siguienteCarta in Aplanar(base.tableau) && siguienteCarta.volteada)
    }

    /** The cards still to be produced: the cached card, then the face-up
        cards the base cursor has not yet produced. */
    ghost function Restantes(): seq<Carta>
      reads this, base, Aplanar(base.tableau)
      requires Valid()
    {
      (if siguienteCarta == null then [] else [siguienteCarta]) + Volteadas(base.restantes)
    }

    /** Wraps `base` and primes the lookahead, so `HasNext` is right at once. */
    constructor (base: TableauIterator)
      requires base.Valid()
      modifies base
      ensures this.base == base && Valid()
      ensures Restantes() == Volteadas(old(base.restantes))
    {
      this.base := base;
      new;
      EncontrarSiguiente();
    }

    /** Pulls base cards until a face-up one is found, and caches it
        (`null` once the base cursor is exhausted). */
    method EncontrarSiguiente()
      requires base.Valid()
      modifies this, base
      ensures Valid()
      ensures Restantes() == Volteadas(old(base.restantes))
    {
      siguienteCarta := BuscarVolteada(base);
    }

    /** The pulling loop of `EncontrarSiguiente`: consumes base cards up to and
        including the first face-up one. */
    static method BuscarVolteada(base: TableauIterator) returns (c: Carta?)
      requires base.Valid()
      modifies base
      ensures base.Valid()
      ensures c == null ==> base.restantes == [] && Volteadas(old(base.restantes)) == []
      ensures c != null ==> c.volteada && c in Aplanar(base.tableau)
      ensures c != null ==> Volteadas(old(base.restantes)) == [c] + Volteadas(base.restantes)
    {
      ghost var objetivo := Volteadas(base.restantes);
      var hay := Mirar(base);
      while hay
        invariant base.Valid()
        invariant Volteadas(base.restantes) == objetivo
        invariant hay <==> base.restantes != []
        decreases |base.restantes|
      {
        c := Tomar(base);
        if c.volteada {
          return;
        }
        hay := Mirar(base);
      }
      c := null;
    }

    /** One base card, and what it contributes to the face-up filter. */
    static method Tomar(base: TableauIterator) returns (c: Carta)
      requires base.Valid() && base.restantes != []
      modifies base
      ensures base.Valid()
      ensures c in Aplanar(base.tableau) && |base.restantes| < |old(base.restantes)|
      ensures c.volteada ==> Volteadas(old(base.restantes)) == [c] + Volteadas(base.restantes)
      ensures !c.volteada ==> Volteadas(old(base.restantes)) == Volteadas(base.restantes)
    {
      var carta := base.Next();
      c := carta.value;
      VolteadasPaso(c, base.restantes);
    }

    /** The base cursor's `HasNext`, seen through the filter: the face-up
        cards still to come stay the same. */
    static method Mirar(base: TableauIterator) returns (hay: bool)
      requires base.Valid()
      modifies base
      ensures base.Valid() && base.restantes == old(base.restantes)
      ensures hay <==> base.restantes != []
      ensures Volteadas(base.restantes) == old(Volteadas(base.restantes))
    {
      ghost var antes := Volteadas(base.restantes);
      hay := base.HasNext();
      assert Volteadas(base.restantes) == antes;
    }

    /** True iff a card is cached; consumes nothing. */
    method HasNext() returns (r: bool)
      requires Valid()
      ensures r <==> Restantes() != []
    {
      r := siguienteCarta != null;
    }

    /** The cached card, then refills the cache; `None` where the Java code throws
        `NoSuchElementException`. */
    method Next() returns (r: Option<Carta>)
      requires Valid()
      modifies this, base
      ensures Valid()
      ensures old(Restantes()) == [] ==> r == None && Restantes() == []
      ensures old(Restantes()) != [] ==> r.Some? && old(Restantes()) == [r.value] + Restantes()
    {
      if siguienteCarta == null {
        return None;
      }
      var actual := siguienteCarta;
      ghost var resto := Volteadas(base.restantes);
      assert old(Restantes()) == [actual] + resto;
      EncontrarSiguiente();
      r := Some(actual);
    }

    /** Rewinds the base cursor and re-primes: a new pass yields all face-up
        cards of the tableau again. */
    method Reset()
      requires Valid()
      modifies this, base
      ensures Valid() && Restantes() == Volteadas(Aplanar(base.tableau))
    {
      base.Reset();
      EncontrarSiguiente();
    }
  }
}
