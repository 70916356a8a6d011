/** The game engine: it owns the board, the current rule set, the scoring
    presentation and the card factory, and keeps the player's selection and
    the move counter. Every operation is proved against the rule of the same
    name in `Juego`, applied to the engine's state as a value (`Estado`);
    card faces, which live in the cards, are stated separately. */
module Controlador {
  import opened Wrappers
  import opened Secuencias
  import opened Cartas
  import opened Estrategias
  import opened Puntuacion
  import opened Iteradores
  import opened Tablero
  import opened Construccion
  import opened Juego

  /** A fresh deal (empty waste and foundations, stock and tableau one copy
      of each value and suit) holds the whole 52-card deck. */
  lemma RepartoCompleto(m: Mesa)
    requires m.descarte == [] && m.fundaciones == [[], [], [], []]
    requires multiset(Pares(m.mazo + Aplanar(m.tableau))) == multiset(ParesBaraja())
    ensures Contadas(m) == 52
  {
    SumaLongitudesVacias(m.fundaciones);
    BarajaCompleta();
    assert |multiset(Pares(m.mazo + Aplanar(m.tableau)))| == |ParesBaraja()|;
  }

  class SolitarioController {
    var tablero: TableroSolitario?
    var fabrica: Fabrica
    var estrategia: Estrategia
    var puntuacion: SistemaPuntuacion
    const director: DirectorTablero
    var movimientos: int
    var tiempoInicio: int
    var seleccion: seq<Carta>
    var columnaOrigen: int
    var indiceInicioSeleccion: int

    /** A board is present and has its four foundations. */
    predicate Valid()
      reads this, tablero
    {
      tablero != null && |tablero.fundaciones| == 4
    }

    /** The engine's state as a value: the board's piles, the selection and
        the move counter. */
    function Estado(): Mesa
      reads this, tablero
      requires tablero != null
    {
      Mesa(tablero.mazo, tablero.descarte, tablero.fundaciones, tablero.tableau, seleccion, movimientos)
    }

    /** The configuration no game operation touches. */
    function Ajustes(): (Fabrica, Estrategia, SistemaPuntuacion, int)
      reads this
    {
      (fabrica, estrategia, puntuacion, tiempoInicio)
    }

    /** Where the last tableau selection started. */
    function Marcas(): (int, int)
      reads this
    {
      (columnaOrigen, indiceInicioSeleccion)
    }

    /** `columna` and `indice` name a card of the tableau. */
    predicate EnRango(columna: int, indice: int)
      reads this, tablero
      requires tablero != null
    {
      0 <= columna < |tablero.tableau| && 0 <= indice < |tablero.tableau[columna]|
    }

    /** The card a click on (`columna`, `indice`) may turn over. */
    function Clicada(columna: int, indice: int): set<Carta>
      reads this, tablero
      requires tablero != null
    {
      if EnRango(columna, indice) then {tablero.tableau[columna][indice]} else {}
    }

    /** The standard layout of a new game, as the director deals it: a
        face-down stock of 24 and seven columns showing only their tops. */
    predicate TableroNuevo()
      reads this, tablero, tablero.mazo
      reads set c, j | 0 <= c < |tablero.tableau| && 0 <= j < |tablero.tableau[c]| :: tablero.tableau[c][j]
      requires tablero != null
    {
      && |tablero.mazo| == 24 && (forall x :: x in tablero.mazo ==> !x.volteada)
      && tablero.descarte == [] && tablero.fundaciones == [[], [], [], []]
      && |tablero.tableau| == 7 && (forall c :: 0 <= c < 7 ==> |tablero.tableau[c]| == c + 1)
      && (forall c, j :: 0 <= c < 7 && 0 <= j < |tablero.tableau[c]| ==>
            (tablero.tableau[c][j].volteada <==> j == c))
      && Distintas(tablero.mazo + Aplanar(tablero.tableau))
      && multiset(Pares(tablero.mazo + Aplanar(tablero.tableau))) == multiset(ParesBaraja())
    }

    /** Takes the factory, the rule set and the scoring presentation, deals a
        new game and checks its integrity; the selection starts empty. */
    constructor (fabrica: Fabrica, estrategia: Estrategia, sistema: SistemaPuntuacion,
                 ahora: int, azar: seq<int>)
      modifies sistema
      ensures Valid() && fresh(tablero) && TableroNuevo()
      ensures this.fabrica == fabrica && this.estrategia == estrategia && puntuacion == sistema
      ensures movimientos == 0 && tiempoInicio == ahora
      ensures seleccion == [] && columnaOrigen == -1 && indiceInicioSeleccion == -1
      ensures Contadas(Estado()) == 52 == fabrica.NumeroValores() * fabrica.NumeroPalos()
      ensures sistema.implementacion == old(sistema.implementacion)
      ensures sistema.variante == ConTiempo ==> sistema.tiempoInicio == ahora
      ensures sistema.variante == Estandar ==> sistema.tiempoInicio == old(sistema.tiempoInicio)
    {
      this.fabrica := fabrica;
      this.estrategia := estrategia;
      puntuacion := sistema;
      var builder := new TableroSolitarioConcreto(fabrica);
      director := new DirectorTablero(builder);
      seleccion := [];
      columnaOrigen := -1;
      indiceInicioSeleccion := -1;
      tiempoInicio := ahora;
      movimientos := 0;
      tablero := null;
      new;
      InicializarJuego(ahora, azar);
      TamanoBaraja(fabrica);
      var valido := ValidarEstadoJuego();
      if !valido {
        assert false;
      }
    }

    /** Deals a new board, zeroes the move counter and restarts the clocks.
        The selection is not cleared: it may name cards of the old board. */
    method InicializarJuego(ahora: int, azar: seq<int>)
      modifies this, director.builder, puntuacion
      ensures Valid() && fresh(tablero) && TableroNuevo()
      ensures Contadas(Estado()) == 52 == fabrica.NumeroValores() * fabrica.NumeroPalos()
      ensures movimientos == 0 && tiempoInicio == ahora
      ensures seleccion == old(seleccion) && Marcas() == old(Marcas())
      ensures fabrica == old(fabrica) && estrategia == old(estrategia) && puntuacion == old(puntuacion)
      ensures puntuacion.implementacion == old(puntuacion.implementacion)
      ensures puntuacion.variante == ConTiempo ==> puntuacion.tiempoInicio == ahora
      ensures puntuacion.variante == Estandar ==> puntuacion.tiempoInicio == old(puntuacion.tiempoInicio)
    {
      tablero := director.ConstruirTableroEstandar(azar);
      movimientos := 0;
      tiempoInicio := ahora;
      if puntuacion.variante == ConTiempo {
        puntuacion.ReiniciarTiempo(ahora);
      }
      RepartoCompleto(Estado());
      TamanoBaraja(fabrica);
    }

    /** `reiniciarJuego`: a new deal with the same configuration; the
        integrity check cannot fail on it. */
    method ReiniciarJuego(ahora: int, azar: seq<int>)
      modifies this, director.builder, puntuacion
      ensures Valid() && fresh(tablero) && TableroNuevo()
      ensures Contadas(Estado()) == 52 == fabrica.NumeroValores() * fabrica.NumeroPalos()
      ensures movimientos == 0 && tiempoInicio == ahora
      ensures seleccion == old(seleccion) && Marcas() == old(Marcas())
      ensures fabrica == old(fabrica) && estrategia == old(estrategia) && puntuacion == old(puntuacion)
      ensures puntuacion.implementacion == old(puntuacion.implementacion)
      ensures puntuacion.variante == ConTiempo ==> puntuacion.tiempoInicio == ahora
      ensures puntuacion.variante == Estandar ==> puntuacion.tiempoInicio == old(puntuacion.tiempoInicio)
    {
      InicializarJuego(ahora, azar);
      TamanoBaraja(fabrica);
      var valido := ValidarEstadoJuego();
      if !valido {
        assert false;
      }
    }

    /** `cambiarTipoBaraja` as written: an English factory is replaced by an
        English one and any other by a French one, so the factory never
        changes; the game is dealt again. */
    method CambiarTipoBaraja(ahora: int, azar: seq<int>)
      modifies this, director.builder, puntuacion
      ensures fabrica == old(fabrica)
      ensures Valid() && fresh(tablero) && TableroNuevo()
      ensures Contadas(Estado()) == 52 == fabrica.NumeroValores() * fabrica.NumeroPalos()
      ensures movimientos == 0 && tiempoInicio == ahora
      ensures seleccion == old(seleccion) && Marcas() == old(Marcas())
      ensures estrategia == old(estrategia) && puntuacion == old(puntuacion)
      ensures puntuacion.implementacion == old(puntuacion.implementacion)
      ensures puntuacion.variante == ConTiempo ==> puntuacion.tiempoInicio == ahora
      ensures puntuacion.variante == Estandar ==> puntuacion.tiempoInicio == old(puntuacion.tiempoInicio)
    {
      if fabrica == FabricaInglesa {
        fabrica := FabricaInglesa;
      } else {
        fabrica := FabricaFrancesa;
      }
      InicializarJuego(ahora, azar);
      TamanoBaraja(fabrica);
      var valido := ValidarEstadoJuego();
      if !valido {
        assert false;
      }
    }

    /** Later moves follow `nueva`'s rules; the board is kept. */
    method CambiarEstrategia(nueva: Estrategia)
      modifies this
      ensures estrategia == nueva
      ensures tablero == old(tablero) && seleccion == old(seleccion) && movimientos == old(movimientos)
      ensures fabrica == old(fabrica) && puntuacion == old(puntuacion) && tiempoInicio == old(tiempoInicio)
      ensures Marcas() == old(Marcas())
    {
      estrategia := nueva;
    }

    /** Later scores come from `nuevo`; the board is kept. */
    method CambiarSistemaPuntuacion(nuevo: SistemaPuntuacion)
      modifies this
      ensures puntuacion == nuevo
      ensures tablero == old(tablero) && seleccion == old(seleccion) && movimientos == old(movimientos)
      ensures fabrica == old(fabrica) && estrategia == old(estrategia) && tiempoInicio == old(tiempoInicio)
      ensures Marcas() == old(Marcas())
    {
      puntuacion := nuevo;
    }

    /** One more move. */
    method IncrementarMovimientos()
      modifies this
      ensures movimientos == old(movimientos) + 1
      ensures tablero == old(tablero) && seleccion == old(seleccion)
      ensures Ajustes() == old(Ajustes()) && Marcas() == old(Marcas())
    {
      movimientos := movimientos + 1;
    }

    /** Empties the selection and forgets where it came from. */
    method LimpiarSeleccion()
      modifies this
      ensures seleccion == [] && columnaOrigen == -1 && indiceInicioSeleccion == -1
      ensures tablero == old(tablero) && movimientos == old(movimientos)
      ensures Ajustes() == old(Ajustes())
    {
      seleccion := [];
      columnaOrigen := -1;
      indiceInicioSeleccion := -1;
    }

    // ---------------------------------------------------------- counting

    /** The number of foundation cards, column by column. */
    method ContarCartasEnFundaciones() returns (total: int)
      requires Valid()
      ensures total == SumaLongitudes(tablero.fundaciones)
      ensures total == |Aplanar(tablero.fundaciones)|
    {
      var f := tablero.fundaciones;
      total := 0;
      for k := 0 to |f|
        invariant total == SumaLongitudes(f[..k])
      {
        assert f[..k + 1][..k] == f[..k];
        total := total + |f[k]|;
      }
      assert f[..|f|] == f;
      LongitudAplanar(f);
    }

    /** The integrity check: a cursor pass over the tableau plus the stock,
        waste and foundation sizes must add up to the factory's deck size. */
    method ValidarEstadoJuego() returns (valido: bool)
      requires Valid()
      ensures valido <==> Contadas(Estado()) == fabrica.NumeroValores() * fabrica.NumeroPalos()
    {
      var it := tablero.CreateIterator();
      var contadas := ContarRestantes(it);
      var total := fabrica.NumeroValores() * fabrica.NumeroPalos();
      var enFundaciones := ContarCartasEnFundaciones();
      valido := contadas + |tablero.mazo| + |tablero.descarte| + enFundaciones == total;
    }

    /** The counting loop of `validarEstadoJuego`: drains the tableau cursor,
        counting the cards it yields. */
    static method ContarRestantes(it: TableauIterator) returns (contadas: nat)
      requires it.Valid()
      modifies it
      ensures contadas == |old(it.restantes)|
    {
      contadas := 0;
      var hay := it.HasNext();
      while hay
        invariant it.Valid()
        invariant contadas + |it.restantes| == |old(it.restantes)|
        invariant hay <==> it.restantes != []
        decreases |it.restantes|
      {
        var _ := it.Next();
        contadas := contadas + 1;
        hay := it.HasNext();
      }
    }

    /** Victory: the foundations hold the whole deck. */
    method VerificarVictoria() returns (r: bool)
      requires Valid()
      ensures r <==> Victoria(Estado(), fabrica)
    {
      var enFundaciones := ContarCartasEnFundaciones();
      r := enFundaciones == fabrica.NumeroValores() * fabrica.NumeroPalos();
    }

    /** The current score: the presentation applied to the move count, the
        elapsed time up to `ahora` and the foundation count; never negative. */
    method GetPuntuacion(ahora: int) returns (r: int)
      requires Valid()
      ensures r >= 0
      ensures r == puntuacion.CalcularPuntuacionFinal(movimientos, ahora - tiempoInicio, |Aplanar(tablero.fundaciones)|)
    {
      var tiempo := ahora - tiempoInicio;
      var enFundaciones := ContarCartasEnFundaciones();
      r := puntuacion.CalcularPuntuacionFinal(movimientos, tiempo, enFundaciones);
    }

    // ------------------------------------------------------------- stock

    /** Draws as many cards as the rule set says from the stock end onto the
        waste, turning them face up, or recycles the waste when the stock is
        empty; false, and nothing changes, when both are empty. */
    method PasarCartasDelMazo() returns (r: bool)
      requires Valid()
      modifies this, tablero, tablero.mazo, tablero.descarte
      ensures Valid() && tablero == old(tablero)
      ensures Ajustes() == old(Ajustes()) && Marcas() == old(Marcas())
      ensures r <==> old(tablero.mazo) != [] || old(tablero.descarte) != []
      ensures Estado() == Pasar(old(Estado()), estrategia.CartasAPasar())
      ensures old(tablero.mazo) != [] ==>
        forall j :: |old(tablero.descarte)| <= j < |tablero.descarte| ==> tablero.descarte[j].volteada
      ensures old(tablero.mazo) == [] ==> forall x :: x in old(tablero.descarte) ==> !x.volteada
      ensures old(tablero.mazo) != [] ==>
        forall y: Carta :: (old(allocated(y)) &&
          y !in old(tablero.mazo)[|old(tablero.mazo)| - Min(estrategia.CartasAPasar(), |old(tablero.mazo)|)..]) ==>
          y.volteada == old(y.volteada)
      ensures old(tablero.mazo) == [] ==>
        forall y: Carta :: old(allocated(y)) && y !in old(tablero.descarte) ==> y.volteada == old(y.volteada)
    {
      if tablero.mazo == [] && tablero.descarte == [] {
        return false;
      }
      if tablero.mazo == [] {
        ReciclarDescarte();
        assert tablero.mazo == Invertido(old(tablero.descarte));
        return true;
      }
      var n := estrategia.CartasAPasar();
      PasarDelMazo(n);
      IncrementarMovimientos();
      return true;
    }

    /** The draw loop of `pasarCartasDelMazo`: up to `n` cards leave the
        stock end, one at a time, each turned face up and appended to the
        waste. */
    method PasarDelMazo(n: nat)
      requires tablero != null
      modifies tablero, tablero.mazo
      ensures tablero.mazo == old(tablero.mazo)[..|old(tablero.mazo)| - Min(n, |old(tablero.mazo)|)]
      ensures tablero.descarte == old(tablero.descarte) + Invertido(old(tablero.mazo))[..Min(n, |old(tablero.mazo)|)]
      ensures tablero.fundaciones == old(tablero.fundaciones) && tablero.tableau == old(tablero.tableau)
      ensures forall j :: |old(tablero.descarte)| <= j < |tablero.descarte| ==> tablero.descarte[j].volteada
      ensures forall y: Carta :: old(allocated(y)) && y !in old(tablero.mazo)[|old(tablero.mazo)| - Min(n, |old(tablero.mazo)|)..] ==>
        y.volteada == old(y.volteada)
    {
      ghost var M, D := tablero.mazo, tablero.descarte;
      var i := 0;
      while i < n && tablero.mazo != []
        invariant 0 <= i <= Min(n, |M|)
        invariant tablero.mazo == M[..|M| - i]
        invariant tablero.descarte == D + Invertido(M)[..i]
        invariant tablero.fundaciones == old(tablero.fundaciones) && tablero.tableau == old(tablero.tableau)
        invariant forall j :: |D| <= j < |tablero.descarte| ==> tablero.descarte[j].volteada
        invariant forall y: Carta :: old(allocated(y)) && y !in M[|M| - i..] ==> y.volteada == old(y.volteada)
      {
        var carta := tablero.mazo[|tablero.mazo| - 1];
        assert carta == Invertido(M)[i];
        assert M[..|M| - i][..|M| - i - 1] == M[..|M| - (i + 1)];
        assert M[|M| - (i + 1)..] == [carta] + M[|M| - i..];
        tablero.mazo := tablero.mazo[..|tablero.mazo| - 1];
        if !carta.volteada {
          carta.Voltear();
        }
        assert Invertido(M)[..i + 1] == Invertido(M)[..i] + [carta];
        tablero.descarte := tablero.descarte + [carta];
        i := i + 1;
      }
    }

    /** Moves the waste back onto the stock one card at a time from its end,
        turning each face down: the stock gains the waste reversed. */
    method ReciclarDescarte()
      requires Valid()
      modifies this, tablero, tablero.descarte
      ensures Valid() && tablero == old(tablero)
      ensures Ajustes() == old(Ajustes()) && Marcas() == old(Marcas())
      ensures tablero.mazo == old(tablero.mazo) + Invertido(old(tablero.descarte))
      ensures tablero.descarte == []
      ensures tablero.fundaciones == old(tablero.fundaciones) && tablero.tableau == old(tablero.tableau)
      ensures seleccion == old(seleccion) && movimientos == old(movimientos) + 1
      ensures forall x :: x in old(tablero.descarte) ==> !x.volteada
    {
      ghost var M, D := tablero.mazo, tablero.descarte;
      while tablero.descarte != []
        invariant |tablero.descarte| <= |D|
        invariant tablero.descarte == D[..|tablero.descarte|]
        invariant tablero.mazo == M + Invertido(D)[..|D| - |tablero.descarte|]
        invariant tablero.fundaciones == old(tablero.fundaciones) && tablero.tableau == old(tablero.tableau)
        invariant forall j :: |M| <= j < |tablero.mazo| ==> !tablero.mazo[j].volteada
        modifies tablero, D
        decreases |tablero.descarte|
      {
        var k := |tablero.descarte|;
        var carta := tablero.descarte[k - 1];
        assert carta == Invertido(D)[|D| - k];
        assert D[..k][..k - 1] == D[..k - 1];
        tablero.descarte := tablero.descarte[..k - 1];
        if carta.volteada {
          carta.Voltear();
        }
        assert Invertido(D)[..|D| - k + 1] == Invertido(D)[..|D| - k] + [carta];
        tablero.mazo := tablero.mazo + [carta];
      }
      assert Invertido(D)[..|D|] == Invertido(D);
      forall x | x in D ensures !x.volteada {
        var j :| 0 <= j < |D| && D[j] == x;
        assert tablero.mazo[|M| + |D| - 1 - j] == x;
      }
      IncrementarMovimientos();
    }

    // --------------------------------------------------------- selection

    /** Selects the top waste card alone; false when the waste is empty. */
    method SeleccionarCartaDescarte() returns (r: bool)
      requires Valid()
      modifies this
      ensures Valid() && tablero == old(tablero)
      ensures Ajustes() == old(Ajustes()) && Marcas() == old(Marcas())
      ensures r <==> old(tablero.descarte) != []
      ensures Estado() == SeleccionarDescarte(old(Estado()))
    {
      if tablero.descarte == [] {
        return false;
      }
      var carta := tablero.descarte[|tablero.descarte| - 1];
      seleccion := [carta];
      return true;
    }

    /** A click on card `indiceClick` of column `columna`: a face-up card
        selects the cards the rule set lets move from there; a face-down top
        card is turned over, which counts as a move; anything else is
        refused and changes nothing. */
    method SeleccionarCartasTableau(columna: int, indiceClick: int) returns (r: bool)
      requires Valid()
      modifies this, Clicada(columna, indiceClick)
      ensures Valid() && tablero == old(tablero) && Ajustes() == old(Ajustes())
      ensures !EnRango(columna, indiceClick) ==> !r && unchanged(this)
      ensures EnRango(columna, indiceClick) ==>
        var col := tablero.tableau[columna];
        var carta := col[indiceClick];
        && (old(carta.volteada) ==>
              && r && unchanged(carta) && movimientos == old(movimientos)
              && seleccion == Movibles(estrategia, col, indiceClick)
              && columnaOrigen == columna && indiceInicioSeleccion == indiceClick)
        && (!old(carta.volteada) && indiceClick == |col| - 1 ==>
              && r && carta.volteada && movimientos == old(movimientos) + 1
              && seleccion == old(seleccion) && Marcas() == old(Marcas()))
        && (!old(carta.volteada) && indiceClick < |col| - 1 ==>
              !r && unchanged(this) && unchanged(carta))
    {
      if columna < 0 || columna >= |tablero.tableau| {
        return false;
      }
      var columnaCartas := tablero.tableau[columna];
      if indiceClick < 0 || indiceClick >= |columnaCartas| {
        return false;
      }
      var carta := columnaCartas[indiceClick];
      if carta.volteada {
        seleccion := ObtenerCartasMovibles(columnaCartas, indiceClick);
        columnaOrigen := columna;
        indiceInicioSeleccion := indiceClick;
        return true;
      } else if indiceClick == |columnaCartas| - 1 {
        carta.Voltear();
        IncrementarMovimientos();
        return true;
      }
      return false;
    }

    /** The cards a click on position `indiceClick` of `columna` selects: the
        run to the top when the rule set moves runs and the run is chained,
        otherwise the clicked card alone. */
    method ObtenerCartasMovibles(columna: seq<Carta>, indiceClick: nat) returns (r: seq<Carta>)
      requires indiceClick < |columna|
      ensures r == Movibles(estrategia, columna, indiceClick)
    {
      if !estrategia.PermiteMoverMultiplesCartas() {
        return [columna[indiceClick]];
      }
      if indiceClick == |columna| - 1 {
        return [columna[indiceClick]];
      }
      var enConjunto := PuedenMoverseEnConjunto(columna, indiceClick);
      if enConjunto {
        r := [];
        for i := indiceClick to |columna|
          invariant r == columna[indiceClick..i]
        {
          r := r + [columna[i]];
        }
      } else {
        r := [columna[indiceClick]];
      }
    }

    /** Whether every card from `indiceInicio` to the top is face up, one
        lower than the card below it and of the other colour. */
    method PuedenMoverseEnConjunto(columna: seq<Carta>, indiceInicio: nat) returns (r: bool)
      ensures r <==> EnConjunto(columna, indiceInicio)
    {
      if indiceInicio >= |columna| - 1 {
        return true;
      }
      for i := indiceInicio to |columna| - 1
        invariant forall k :: indiceInicio <= k < i ==> Encadenadas(columna[k], columna[k + 1])
      {
        var actual, siguiente := columna[i], columna[i + 1];
        if !actual.volteada || !siguiente.volteada {
          return false;
        }
        if actual.valor != siguiente.valor + 1 || actual.ColorPalo() == siguiente.ColorPalo() {
          return false;
        }
      }
      return true;
    }

    // ------------------------------------------------------------- moves

    /** Moves the single selected card to foundation `i` when the foundation
        rule allows it, clears the selection and counts a move; otherwise
        refuses and changes nothing. */
    method MoverAFundacion(i: int) returns (r: bool)
      requires Valid()
      modifies this, tablero, seleccion, Aplanar(tablero.tableau)
      ensures Valid() && tablero == old(tablero)
      ensures Ajustes() == old(Ajustes()) && Marcas() == old(Marcas())
      ensures r <==> PuedeMoverAFundacion(old(Estado()), i)
      ensures r ==> Estado() == MoverFundacion(old(Estado()), i) && old(seleccion)[0].volteada
      ensures r ==> forall y :: old(allocated(y)) && y in ExpuestaPor(old(Estado()), old(seleccion)[0]) ==> y.volteada
      ensures r ==> forall y :: (old(allocated(y)) && y in Aplanar(old(tablero.tableau)) && y != old(seleccion)[0]
                      && y !in ExpuestaPor(old(Estado()), old(seleccion)[0])) ==> y.volteada == old(y.volteada)
      ensures !r ==> Estado() == old(Estado())
      ensures !r ==> forall y :: old(allocated(y)) && y in old(seleccion) + Aplanar(old(tablero.tableau)) ==> y.volteada == old(y.volteada)
    {
      if seleccion == [] || |seleccion| > 1 {
        return false;
      }
      if i < 0 || i >= 4 {
        return false;
      }
      var carta := seleccion[0];
      var fundacion := tablero.fundaciones[i];
      if PuedeColocarEnFundacion(carta, fundacion) {
        MoverCartaAFundacion(carta, i);
        seleccion := [];
        IncrementarMovimientos();
        return true;
      }
      return false;
    }

    /** Turns `carta` face up, takes it from its place and puts it on
        foundation `i`, then looks for victory. */
    method MoverCartaAFundacion(carta: Carta, i: int)
      requires Valid() && 0 <= i < 4
      modifies tablero, carta, Aplanar(tablero.tableau)
      ensures Valid()
      ensures Estado() == ColocarEnFundacion(old(Estado()), carta, i)
      ensures carta.volteada
      ensures forall y :: old(allocated(y)) && y in ExpuestaPor(old(Estado()), carta) ==> y.volteada
      ensures forall y :: (old(allocated(y)) && y in Aplanar(old(tablero.tableau)) && y != carta
                && y !in ExpuestaPor(old(Estado()), carta)) ==> y.volteada == old(y.volteada)
    {
      if !carta.volteada {
        carta.Voltear();
      }
      RemoverCartaDeUbicacionActual(carta);
      tablero.fundaciones := tablero.fundaciones[i := tablero.fundaciones[i] + [carta]];
      var _ := VerificarVictoria();
    }

    /** Takes `carta` out of the waste when it is there, otherwise out of the
        tableau. */
    method RemoverCartaDeUbicacionActual(carta: Carta)
      requires Valid()
      modifies tablero, Aplanar(tablero.tableau)
      ensures Valid()
      ensures Estado() == QuitarCarta(old(Estado()), carta)
      ensures forall y :: old(allocated(y)) && y in ExpuestaPor(old(Estado()), carta) ==> y.volteada
      ensures forall y :: old(allocated(y)) && y in Aplanar(old(tablero.tableau)) && y !in ExpuestaPor(old(Estado()), carta) ==>
        y.volteada == old(y.volteada)
    {
      if carta in tablero.descarte {
        tablero.descarte := RemoverPrimera(tablero.descarte, carta);
        return;
      }
      var _ := RemoverCartaDeTableau(carta);
    }

    /** Removes the first occurrence of `carta` from the first column holding
        it and turns the new top of that column face up; false when no column
        holds it. */
    method RemoverCartaDeTableau(carta: Carta) returns (encontrada: bool)
      requires Valid()
      modifies tablero, Aplanar(tablero.tableau)
      ensures Valid()
      ensures encontrada <==> carta in Aplanar(old(tablero.tableau))
      ensures tablero.tableau == QuitarDeTableau(old(tablero.tableau), carta)
      ensures tablero.mazo == old(tablero.mazo) && tablero.descarte == old(tablero.descarte)
      ensures tablero.fundaciones == old(tablero.fundaciones)
      ensures forall y :: old(allocated(y)) && y in ExpuestaTras(old(tablero.tableau), carta) ==> y.volteada
      ensures forall y :: old(allocated(y)) && y in Aplanar(old(tablero.tableau)) && y !in ExpuestaTras(old(tablero.tableau), carta) ==>
        y.volteada == old(y.volteada)
    {
      var col := 0;
      while col < |tablero.tableau| && carta !in tablero.tableau[col]
        invariant 0 <= col <= |tablero.tableau|
        invariant forall j :: 0 <= j < col ==> carta !in tablero.tableau[j]
      {
        col := col + 1;
      }
      assert col == ColumnaDe(tablero.tableau, carta);
      if col == |tablero.tableau| {
        return false;
      }
      var t := tablero.tableau;
      var columna := RemoverPrimera(t[col], carta);
      tablero.tableau := t[col := columna];
      if columna != [] {
        var superior := columna[|columna| - 1];
        assert superior in t[col];
        AplanarPartido(t, col);
        assert superior in Aplanar(t);
        assert ExpuestaTras(t, carta) == {superior};
        if !superior.volteada {
          superior.Voltear();
        }
      }
      return true;
    }

    /** Moves the selection onto column `d` when the rule set accepts its
        first card there (and allows several cards when there are several),
        clears the selection and counts a move; otherwise refuses and changes
        nothing. */
    method MoverATableau(d: int) returns (r: bool)
      requires Valid()
      modifies this, tablero, seleccion, Aplanar(tablero.tableau)
      ensures Valid() && tablero == old(tablero)
      ensures Ajustes() == old(Ajustes()) && Marcas() == old(Marcas())
      ensures r <==> PuedeMoverATableau(old(Estado()), estrategia, d)
      ensures r ==> Estado() == MoverTableau(old(Estado()), d)
      ensures r ==> forall x :: x in old(seleccion) ==> x.volteada
      ensures r ==> forall y :: old(allocated(y)) && y in ExpuestasPor(old(Estado()), old(seleccion)) ==> y.volteada
      ensures forall y :: (old(allocated(y)) && y in Aplanar(old(tablero.tableau)) && y !in old(seleccion)
                && y !in ExpuestasPor(old(Estado()), old(seleccion))) ==> y.volteada == old(y.volteada)
      ensures !r ==> Estado() == old(Estado())
      ensures !r ==> forall y :: old(allocated(y)) && y in old(seleccion) + Aplanar(old(tablero.tableau)) ==> y.volteada == old(y.volteada)
    {
      if seleccion == [] {
        return false;
      }
      if d < 0 || d >= |tablero.tableau| {
        return false;
      }
      var primera := seleccion[0];
      var columna := tablero.tableau[d];
      if |seleccion| > 1 && !estrategia.PermiteMoverMultiplesCartas() {
        return false;
      }
      if estrategia.PuedeColocarCarta(primera, columna) {
        MoverCartasATableau(seleccion, d);
        seleccion := [];
        IncrementarMovimientos();
        return true;
      }
      return false;
    }

    /** Turns every card of `cartas` face up, takes each from its place in
        turn, then appends them all to column `d` in order. */
    method MoverCartasATableau(cartas: seq<Carta>, d: int)
      requires Valid() && 0 <= d < |tablero.tableau|
      modifies tablero, cartas, Aplanar(tablero.tableau)
      ensures Valid()
      ensures Estado() == ColocarEnColumna(old(Estado()), cartas, d)
      ensures forall x :: x in cartas ==> x.volteada
      ensures forall y :: old(allocated(y)) && y in ExpuestasPor(old(Estado()), cartas) ==> y.volteada
      ensures forall y :: (old(allocated(y)) && y in Aplanar(old(tablero.tableau)) && y !in cartas
                && y !in ExpuestasPor(old(Estado()), cartas)) ==> y.volteada == old(y.volteada)
    {
      VoltearTodas(cartas);
      RemoverCartas(cartas);
      tablero.tableau := tablero.tableau[d := tablero.tableau[d] + cartas];
    }

    /** The first loop of `moverCartasATableau`: every card of `cartas` that
        lies face down is turned over. */
    static method VoltearTodas(cartas: seq<Carta>)
      modifies cartas
      ensures forall j :: 0 <= j < |cartas| ==> cartas[j].volteada
      ensures forall j :: 0 <= j < |cartas| && old(cartas[j].volteada) ==> unchanged(cartas[j])
    {
      for k := 0 to |cartas|
        invariant forall j :: 0 <= j < k ==> cartas[j].volteada
        invariant forall j :: 0 <= j < |cartas| && old(cartas[j].volteada) ==> unchanged(cartas[j])
      {
        if !cartas[k].volteada {
          cartas[k].Voltear();
        }
      }
    }

    /** The second loop of `moverCartasATableau`: the cards of `cartas` leave
        their places one after the other, first to last. */
    method RemoverCartas(cartas: seq<Carta>)
      requires Valid()
      modifies tablero, Aplanar(tablero.tableau)
      ensures Valid()
      ensures Estado() == QuitarCartas(old(Estado()), cartas)
      ensures forall y :: old(allocated(y)) && y in ExpuestasPor(old(Estado()), cartas) ==> y.volteada
      ensures forall y :: (old(allocated(y)) && y in Aplanar(old(tablero.tableau))
                && y !in ExpuestasPor(old(Estado()), cartas)) ==> y.volteada == old(y.volteada)
    {
      ghost var E0 := Estado();
      ghost var T0 := tablero.tableau;
      assert cartas[..0] == [];
      for k := 0 to |cartas|
        invariant Valid()
        invariant Estado() == QuitarCartas(E0, cartas[..k])
        invariant forall y :: y in Aplanar(tablero.tableau) ==> y in Aplanar(T0)
        invariant forall y :: old(allocated(y)) && y in ExpuestasPor(E0, cartas[..k]) ==> y.volteada
        invariant forall y :: (old(allocated(y)) && y in Aplanar(T0)
                    && y !in ExpuestasPor(E0, cartas[..k])) ==> y.volteada == old(y.volteada)
      {
        ghost var E := Estado();
        assert cartas[..k + 1][..k] == cartas[..k];
        assert ExpuestasPor(E0, cartas[..k + 1]) == ExpuestasPor(E0, cartas[..k]) + ExpuestaPor(E, cartas[k]);
        assert QuitarCartas(E0, cartas[..k + 1]) == QuitarCarta(E, cartas[k]);
        QuitarCartaSubconjunto(E, cartas[k]);
        assert forall i :: 0 <= i < |Aplanar(E.tableau)| ==> Aplanar(E.tableau)[i] in Aplanar(T0);
        RemoverCartaDeUbicacionActual(cartas[k]);
      }
      assert cartas[..|cartas|] == cartas;
    }

    // -------------------------------------------------------- suggestions

    /** Scans the face-up tableau cards in column-major order and lists, for
        each, every foundation index it may go to. */
    method BuscarMovimientosAutomaticos() returns (r: seq<(Carta, int)>)
      requires Valid()
      ensures r == Sugerencias(old(Volteadas(Aplanar(tablero.tableau))), tablero.fundaciones)
    {
      var it := tablero.CreateCartasVolteadasIterator();
      var fundaciones := tablero.fundaciones;
      ghost var objetivo := Volteadas(Aplanar(tablero.tableau));
      r := RecorrerVolteadas(it, fundaciones);
      assert objetivo == old(Volteadas(Aplanar(tablero.tableau)));
    }

    /** The outer loop of `buscarMovimientosAutomaticos`: drains the face-up
        cursor, appending each card's foundation targets in turn. */
    static method RecorrerVolteadas(it: CartasVolteadasIterator, fundaciones: seq<seq<Carta>>)
      returns (r: seq<(Carta, int)>)
      requires it.Valid() && |fundaciones| == 4
      modifies it, it.base
      ensures r == Sugerencias(old(it.Restantes()), fundaciones)
    {
      ghost var objetivo := it.Restantes();
      ghost var vistas: seq<Carta> := [];
      r := [];
      var hay := it.HasNext();
      while hay
        invariant it.Valid()
        invariant vistas + it.Restantes() == objetivo
        invariant r == Sugerencias(vistas, fundaciones)
        invariant hay <==> it.Restantes() != []
        decreases |objetivo| - |vistas|
      {
        ghost var quedan := it.Restantes();
        var siguiente := it.Next();
        hay := it.HasNext();
        var carta := siguiente.value;
        var paraCarta := SugerenciasPara(carta, fundaciones);
        ConcatenarPrimero(vistas, quedan, carta, it.Restantes());
        SugerenciasAnadir(vistas, carta, fundaciones);
        r := r + paraCarta;
        vistas := vistas + [carta];
      }
      assert vistas == objetivo;
    }

    /** The inner loop of `buscarMovimientosAutomaticos`: every foundation
        index 0..3, in order, that `carta` may go to. */
    static method SugerenciasPara(carta: Carta, fundaciones: seq<seq<Carta>>) returns (r: seq<(Carta, int)>)
      requires |fundaciones| == 4
      ensures r == SugerenciasCarta(carta, fundaciones, 4)
    {
      r := [];
      for i := 0 to 4
        invariant r == SugerenciasCarta(carta, fundaciones, i)
      {
        if PuedeColocarEnFundacion(carta, fundaciones[i]) {
          r := r + [(carta, i)];
        }
      }
    }
  }
}
