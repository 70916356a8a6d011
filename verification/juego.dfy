/** The game engine's rules on a snapshot of its state: the four piles of the
    board, the selection list and the move counter. The engine class proves
    each of its operations against the function of the same name here; the
    lemmas state what the rules promise about whole games (card conservation,
    the stale selection, the recycled waste order, the suggestion scan). */
module Juego {
  import opened Secuencias
  import opened Cartas
  import opened Estrategias

  /** The engine's state as a value. Card faces live in the cards themselves. */
  datatype Mesa = Mesa(
    mazo: seq<Carta>,
    descarte: seq<Carta>,
    fundaciones: seq<seq<Carta>>,
    tableau: seq<seq<Carta>>,
    seleccion: seq<Carta>,
    movimientos: int)

  /** Every card on the board: stock, waste, foundations, tableau. */
  function Todas(m: Mesa): seq<Carta>
  {
    m.mazo + m.descarte + Aplanar(m.fundaciones) + Aplanar(m.tableau)
  }

  /** The piles a selected card can be taken from: waste, then tableau. */
  function Origenes(m: Mesa): seq<Carta>
  {
    m.descarte + Aplanar(m.tableau)
  }

  /** The count the integrity check adds up: tableau, stock, waste and
      foundation sizes. It is the number of cards on the board. */
  function Contadas(m: Mesa): (n: nat)
    ensures n == |Todas(m)|
  {
    LongitudAplanar(m.fundaciones);
    |Aplanar(m.tableau)| + |m.mazo| + |m.descarte| + SumaLongitudes(m.fundaciones)
  }

  // ---------------------------------------------------------------- stock

  /** Drawing with draw count `n`: nothing when stock and waste are empty; a
      recycle when only the stock is empty; otherwise up to `n` cards popped
      from the stock end onto the waste end. A draw or recycle is one move. */
  function Pasar(m: Mesa, n: nat): (r: Mesa)
    ensures m.mazo == [] && m.descarte == [] ==> r == m
    ensures m.mazo == [] && m.descarte != [] ==>
      && r.descarte == []
      && |r.mazo| == |m.descarte|
      && forall j :: 0 <= j < |m.descarte| ==> r.mazo[j] == m.descarte[|m.descarte| - 1 - j]
    ensures m.mazo != [] ==>
      && r.mazo == m.mazo[..|m.mazo| - Min(n, |m.mazo|)]
      && |r.descarte| == |m.descarte| + Min(n, |m.mazo|)
      && r.descarte[..|m.descarte|] == m.descarte
      && forall j :: |m.descarte| <= j < |r.descarte| ==>
           r.descarte[j] == m.mazo[|m.mazo| - 1 - (j - |m.descarte|)]
    ensures r.fundaciones == m.fundaciones && r.tableau == m.tableau
    ensures r.seleccion == m.seleccion
    ensures r.movimientos == m.movimientos + (if m.mazo == [] && m.descarte == [] then 0 else 1)
  {
    if m.mazo == [] && m.descarte == [] then m
    else if m.mazo == [] then
      m.(mazo := Invertido(m.descarte), descarte := [], movimientos := m.movimientos + 1)
    else
      var k := Min(n, |m.mazo|);
      m.(mazo := m.mazo[..|m.mazo| - k],
         descarte := m.descarte + Invertido(m.mazo)[..k],
         movimientos := m.movimientos + 1)
  }

  /** The cards a draw of `k` moves are the last `k` of the stock. */
  lemma TomarDelFinal(a: seq<Carta>, k: nat)
    requires k <= |a|
    ensures multiset(a[..|a| - k]) + multiset(Invertido(a)[..k]) == multiset(a)
  {
    var cola := a[|a| - k..];
    assert multiset(Invertido(a)[..k]) == multiset(cola) by {
      InvertidoPrefijo(a, k);
      InvertidoMultiset(cola);
    }
    assert multiset(a) == multiset(a[..|a| - k]) + multiset(cola) by {
      assert a == a[..|a| - k] + cola;
    }
  }

  /** The board's cards split by pile kind. */
  lemma TodasPartidas(m: Mesa)
    ensures multiset(Todas(m)) == multiset(m.mazo) + multiset(Aplanar(m.fundaciones)) + multiset(Origenes(m))
  {
  }

  /** Drawing and recycling neither create nor lose cards. */
  lemma PasarConserva(m: Mesa, n: nat)
    ensures multiset(Todas(Pasar(m, n))) == multiset(Todas(m))
  {
    var r := Pasar(m, n);
    if m.mazo == [] && m.descarte != [] {
      InvertidoMultiset(m.descarte);
      assert r.mazo == Invertido(m.descarte) && r.descarte == [];
    } else if m.mazo != [] {
      var k := Min(n, |m.mazo|);
      TomarDelFinal(m.mazo, k);
      assert r.mazo == m.mazo[..|m.mazo| - k];
      assert r.descarte == m.descarte + Invertido(m.mazo)[..k];
    }
  }

  /** After a recycle the next draw deals the old waste again from its
      bottom card up, in the order it was first drawn. */
  lemma ReciclarConservaOrden(m: Mesa, n: nat, n': nat)
    requires m.mazo == [] && m.descarte != []
    ensures var r := Pasar(Pasar(m, n), n');
      && |r.descarte| == Min(n', |m.descarte|)
      && r.descarte == m.descarte[..Min(n', |m.descarte|)]
  {
    var p := Pasar(m, n);
    assert p.mazo == Invertido(m.descarte) && p.descarte == [];
    var r := Pasar(p, n');
    assert r.descarte == [] + Invertido(p.mazo)[..Min(n', |p.mazo|)];
    InvertidoInvolutivo(m.descarte);
  }

  // ------------------------------------------------------------ selection

  /** `seleccionarCartaDescarte`: the selection becomes the top waste card. */
  function SeleccionarDescarte(m: Mesa): (r: Mesa)
    ensures m.descarte == [] ==> r == m
    ensures m.descarte != [] ==> r == m.(seleccion := [m.descarte[|m.descarte| - 1]])
  {
    if m.descarte == [] then m else m.(seleccion := [m.descarte[|m.descarte| - 1]])
  }

  /** Two neighbours in a movable run: both face up, the lower one exactly
      one higher and of the other colour. */
  predicate Encadenadas(a: Carta, b: Carta)
    reads a, b
  {
    a.volteada && b.volteada && a.valor == b.valor + 1 && a.ColorPalo() != b.ColorPalo()
  }

  /** `puedenMoverseEnConjunto`: from `inicio` to the top every card is
      chained to the next one. */
  predicate EnConjunto(columna: seq<Carta>, inicio: nat)
    reads columna
  {
    forall k :: inicio <= k < |columna| - 1 ==> Encadenadas(columna[k], columna[k + 1])
  }

  /** `obtenerCartasMovibles`: the cards a click on position `i` selects. */
  function Movibles(e: Estrategia, columna: seq<Carta>, i: nat): (r: seq<Carta>)
    requires i < |columna|
    reads columna
    ensures r != [] && r[0] == columna[i]
    ensures r == [columna[i]] || r == columna[i..]
    ensures |r| > 1 ==> e.PermiteMoverMultiplesCartas() && EnConjunto(columna, i)
    ensures e.PermiteMoverMultiplesCartas() && EnConjunto(columna, i) ==> r == columna[i..]
    ensures !e.PermiteMoverMultiplesCartas() ==> r == [columna[i]]
  {
    if !e.PermiteMoverMultiplesCartas() then [columna[i]]
    else if i == |columna| - 1 then [columna[i]]
    else if EnConjunto(columna, i) then columna[i..]
    else [columna[i]]
  }

  // ---------------------------------------------------------- foundations

  /** `puedeColocarEnFundacion`: an empty foundation takes an ace; otherwise
      the card must follow the top card in its suit. */
  predicate PuedeColocarEnFundacion(carta: Carta, fundacion: seq<Carta>)
  {
    if fundacion == [] then carta.valor == 0
    else carta.EsSiguienteEnSecuencia(fundacion[|fundacion| - 1])
  }

  /** A foundation built by the rule: ace, two, three, ... of one suit. */
  predicate Escalera(f: seq<Carta>)
  {
    forall k :: 0 <= k < |f| ==> f[k].valor == k && f[k].palo == f[0].palo
  }

  /** Placing by the rule keeps a foundation an ascending run of one suit. */
  lemma ColocarMantieneEscalera(f: seq<Carta>, c: Carta)
    requires Escalera(f) && PuedeColocarEnFundacion(c, f)
    ensures Escalera(f + [c])
  {
    if f != [] {
      assert f[|f| - 1].valor == |f| - 1;
    }
  }

  // --------------------------------------------------------- card removal

  /** The first column holding `x`, or `|t|` when none does. */
  function ColumnaDe(t: seq<seq<Carta>>, x: Carta): (c: nat)
    ensures c <= |t|
    ensures c < |t| ==> x in t[c]
    ensures forall j :: 0 <= j < c ==> x !in t[j]
    ensures c == |t| <==> x !in Aplanar(t)
  {
    if t == [] then 0
    else if x in t[0] then 0
    else
      var c := ColumnaDe(t[1..], x) + 1;
      assert forall j :: 1 <= j < c ==> t[j] == t[1..][j - 1];
      c
  }

  /** `removerCartaDeTableau` on the piles: the first occurrence of `x` leaves
      the first column that holds it. */
  function QuitarDeTableau(t: seq<seq<Carta>>, x: Carta): (r: seq<seq<Carta>>)
  {
    var c := ColumnaDe(t, x);
    if c == |t| then t else t[c := RemoverPrimera(t[c], x)]
  }

  /** The card left on top of the column `x` was taken from, which the
      engine turns face up (empty when `x` was not in the tableau or its
      column is now empty). */
  function ExpuestaTras(t: seq<seq<Carta>>, x: Carta): set<Carta>
  {
    var c := ColumnaDe(t, x);
    if c < |t| && |t[c]| > 1 then {RemoverPrimera(t[c], x)[|t[c]| - 2]} else {}
  }

  /** `removerCartaDeUbicacionActual`: from the waste when it is there,
      otherwise from the tableau. Stock, foundations and selection stay. */
  function QuitarCarta(m: Mesa, x: Carta): (r: Mesa)
    ensures r.mazo == m.mazo && r.fundaciones == m.fundaciones
    ensures r.seleccion == m.seleccion && r.movimientos == m.movimientos
    ensures |r.tableau| == |m.tableau|
  {
    if x in m.descarte then m.(descarte := RemoverPrimera(m.descarte, x))
    else m.(tableau := QuitarDeTableau(m.tableau, x))
  }

  /** The card a removal of `x` turns face up. */
  function ExpuestaPor(m: Mesa, x: Carta): set<Carta>
  {
    if x in m.descarte then {} else ExpuestaTras(m.tableau, x)
  }

  /** Removing the cards of `xs` one after the other, first to last. */
  function QuitarCartas(m: Mesa, xs: seq<Carta>): (r: Mesa)
    ensures r.mazo == m.mazo && r.fundaciones == m.fundaciones
    ensures r.seleccion == m.seleccion && r.movimientos == m.movimientos
    ensures |r.tableau| == |m.tableau|
  {
    if xs == [] then m else QuitarCarta(QuitarCartas(m, xs[..|xs| - 1]), xs[|xs| - 1])
  }

  /** The cards turned face up along `QuitarCartas`. */
  function ExpuestasPor(m: Mesa, xs: seq<Carta>): set<Carta>
  {
    if xs == [] then {}
    else ExpuestasPor(m, xs[..|xs| - 1]) + ExpuestaPor(QuitarCartas(m, xs[..|xs| - 1]), xs[|xs| - 1])
  }

  /** Taking `x` out of the tableau removes exactly one copy of it from the
      tableau's cards when it is there. */
  lemma QuitarDeTableauMultiset(t: seq<seq<Carta>>, x: Carta)
    ensures x in Aplanar(t) ==>
      multiset(Aplanar(QuitarDeTableau(t, x))) + multiset{x} == multiset(Aplanar(t))
    ensures x !in Aplanar(t) ==> QuitarDeTableau(t, x) == t
  {
    if x in Aplanar(t) {
      var c := ColumnaDe(t, x);
      var col := RemoverPrimera(t[c], x);
      AplanarActualizar(t, c, col);
      CancelarParte(multiset(Aplanar(t[c := col])), multiset(Aplanar(t)), multiset(t[c]), multiset(col), x);
    }
  }

  /** A removal takes exactly one copy of `x` out of waste plus tableau when
      it is there, and changes nothing otherwise. */
  lemma QuitarCartaMultiset(m: Mesa, x: Carta)
    ensures x in Origenes(m) ==>
      multiset(Origenes(QuitarCarta(m, x))) + multiset{x} == multiset(Origenes(m))
    ensures x !in Origenes(m) ==> QuitarCarta(m, x) == m
  {
    QuitarDeTableauMultiset(m.tableau, x);
  }

  /** Removal never brings a new card into the tableau. */
  lemma QuitarCartaSubconjunto(m: Mesa, x: Carta)
    ensures forall y :: y in Aplanar(QuitarCarta(m, x).tableau) ==> y in Aplanar(m.tableau)
  {
    var t := m.tableau;
    QuitarDeTableauMultiset(t, x);
    if x !in m.descarte && x in Aplanar(t) {
      var a := multiset(Aplanar(QuitarDeTableau(t, x)));
      forall y | y in Aplanar(QuitarDeTableau(t, x)) ensures y in Aplanar(t) {
        assert y in a;
        assert (a + multiset{x})[y] == multiset(Aplanar(t))[y];
      }
    }
  }

  /** The card a removal exposes was already in the tableau. */
  lemma ExpuestaEnTableau(m: Mesa, x: Carta)
    ensures forall y :: y in ExpuestaPor(m, x) ==> y in Aplanar(m.tableau)
  {
    var t := m.tableau;
    var c := ColumnaDe(t, x);
    if x !in m.descarte && c < |t| && |t[c]| > 1 {
      var col := RemoverPrimera(t[c], x);
      assert col[|t[c]| - 2] in t[c];
      AplanarPartido(t, c);
    }
  }

  /** Removing a list of cards that waste and tableau hold takes exactly
      those cards out. */
  lemma {:induction false} QuitarCartasMultiset(m: Mesa, xs: seq<Carta>)
    requires multiset(xs) <= multiset(Origenes(m))
    ensures multiset(Origenes(QuitarCartas(m, xs))) + multiset(xs) == multiset(Origenes(m))
    decreases |xs|
  {
    if xs != [] {
      var p, y := xs[..|xs| - 1], xs[|xs| - 1];
      assert xs == p + [y];
      var q := QuitarCartas(m, p);
      assert multiset(xs) == multiset(p) + multiset{y};
      SinUno(multiset(p), multiset(Origenes(m)), y);
      QuitarCartasMultiset(m, p);
      QuedaEnResto(multiset(Origenes(q)), multiset(p), multiset(Origenes(m)), y);
      QuitarCartaMultiset(q, y);
      QuitarUnoMas(multiset(Origenes(QuitarCarta(q, y))), multiset(Origenes(q)),
                   multiset(Origenes(m)), multiset(p), y);
    }
  }

  // ----------------------------------------------------------------- moves

  /** `moverAFundacion`'s guard: one selected card, an index in 0..3 and the
      foundation rule. */
  predicate PuedeMoverAFundacion(m: Mesa, i: int)
  {
    && |m.seleccion| == 1
    && 0 <= i < 4 && i < |m.fundaciones|
    && PuedeColocarEnFundacion(m.seleccion[0], m.fundaciones[i])
  }

  /** `moverCartaAFundacion` on the piles: the card leaves its place and ends
      on foundation `i`. */
  function ColocarEnFundacion(m: Mesa, x: Carta, i: nat): (r: Mesa)
    requires i < |m.fundaciones|
    ensures |r.fundaciones| == |m.fundaciones|
    ensures r.fundaciones[i] == m.fundaciones[i] + [x]
  {
    var q := QuitarCarta(m, x);
    q.(fundaciones := q.fundaciones[i := q.fundaciones[i] + [x]])
  }

  /** A successful `moverAFundacion`: the card moves, the selection is
      cleared, one move is counted. */
  function MoverFundacion(m: Mesa, i: int): (r: Mesa)
    requires PuedeMoverAFundacion(m, i)
    ensures r.seleccion == [] && r.movimientos == m.movimientos + 1
    ensures r.mazo == m.mazo && |r.fundaciones| == |m.fundaciones|
    ensures r.fundaciones[i] == m.fundaciones[i] + [m.seleccion[0]]
    ensures forall j :: 0 <= j < |m.fundaciones| && j != i ==> r.fundaciones[j] == m.fundaciones[j]
  {
    ColocarEnFundacion(m, m.seleccion[0], i).(seleccion := [], movimientos := m.movimientos + 1)
  }

  /** A move to a foundation keeps every foundation an ascending run of one suit. */
  lemma MoverFundacionEscaleras(m: Mesa, i: int)
    requires PuedeMoverAFundacion(m, i)
    requires forall j :: 0 <= j < |m.fundaciones| ==> Escalera(m.fundaciones[j])
    ensures forall j :: 0 <= j < |m.fundaciones| ==> Escalera(MoverFundacion(m, i).fundaciones[j])
  {
    ColocarMantieneEscalera(m.fundaciones[i], m.seleccion[0]);
  }

  /** When the selected card still lies in the waste or the tableau, a move
      to a foundation keeps every card on the board exactly once. */
  lemma MoverFundacionConserva(m: Mesa, i: int)
    requires PuedeMoverAFundacion(m, i) && m.seleccion[0] in Origenes(m)
    ensures multiset(Todas(MoverFundacion(m, i))) == multiset(Todas(m))
  {
    var x := m.seleccion[0];
    var q := QuitarCarta(m, x);
    var r := MoverFundacion(m, i);
    QuitarCartaMultiset(m, x);
    AplanarAnexar(m.fundaciones, i, [x]);
    assert Origenes(r) == Origenes(q) && r.fundaciones == m.fundaciones[i := m.fundaciones[i] + [x]];
    TodasPartidas(r);
    TodasPartidas(m);
  }

  /** When the selected card is no longer in the waste or the tableau (a
      stale selection), the move still puts it on the foundation: the board
      gains a second copy and the count grows by one. */
  lemma MoverFundacionObsoleta(m: Mesa, i: int)
    requires PuedeMoverAFundacion(m, i) && m.seleccion[0] !in Origenes(m)
    ensures multiset(Todas(MoverFundacion(m, i))) == multiset(Todas(m)) + multiset{m.seleccion[0]}
    ensures Contadas(MoverFundacion(m, i)) == Contadas(m) + 1
  {
    var x := m.seleccion[0];
    var r := MoverFundacion(m, i);
    QuitarCartaMultiset(m, x);
    AplanarAnexar(m.fundaciones, i, [x]);
    assert Origenes(r) == Origenes(m) && r.fundaciones == m.fundaciones[i := m.fundaciones[i] + [x]];
    TodasPartidas(r);
    TodasPartidas(m);
  }

  /** On a board without duplicates the top waste card is not in the tableau. */
  lemma CimaDescarteFueraDeTableau(m: Mesa)
    requires m.descarte != [] && Distintas(Todas(m))
    ensures m.descarte[|m.descarte| - 1] !in Aplanar(m.tableau)
  {
    var x := m.descarte[|m.descarte| - 1];
    var a := |m.mazo| + |m.descarte| - 1;
    var base := |m.mazo| + |m.descarte| + |Aplanar(m.fundaciones)|;
    assert Todas(m)[a] == x;
    forall j | 0 <= j < |Aplanar(m.tableau)| ensures Aplanar(m.tableau)[j] != x {
      assert Todas(m)[base + j] == Aplanar(m.tableau)[j];
      DistintasDistintos(Todas(m), a, base + j);
    }
  }

  /** The selection survives a draw: select the top waste card (an ace),
      recycle the waste into the stock, then move the selection to an empty
      foundation. The ace is now both in the stock and on the foundation,
      and the integrity count is one too many. */
  lemma SeleccionObsoletaTrasReciclar(m: Mesa, n: nat, i: int)
    requires m.mazo == [] && m.descarte != [] && Distintas(Todas(m))
    requires 0 <= i < 4 && i < |m.fundaciones| && m.fundaciones[i] == []
    requires m.descarte[|m.descarte| - 1].valor == 0
    ensures var p := Pasar(SeleccionarDescarte(m), n);
      && PuedeMoverAFundacion(p, i)
      && m.descarte[|m.descarte| - 1] in MoverFundacion(p, i).mazo
      && m.descarte[|m.descarte| - 1] in MoverFundacion(p, i).fundaciones[i]
      && Contadas(MoverFundacion(p, i)) == Contadas(m) + 1
  {
    var x := m.descarte[|m.descarte| - 1];
    var p := Pasar(SeleccionarDescarte(m), n);
    assert p == m.(mazo := Invertido(m.descarte), descarte := [], seleccion := [x],
                   movimientos := m.movimientos + 1);
    assert p.mazo[0] == x;
    CimaDescarteFueraDeTableau(m);
    assert Origenes(p) == Aplanar(m.tableau);
    assert Contadas(p) == Contadas(m);
    MoverFundacionObsoleta(p, i);
  }

  /** A card selected alone from the middle of a column (the rules allow it
      when the run above it is not movable) goes to the foundation and leaves
      the cards above it in that column: the column closes over the gap. */
  lemma MoverFundacionDesdeElMedio(m: Mesa, i: int, c: nat, k: nat)
    requires PuedeMoverAFundacion(m, i) && m.seleccion[0] !in m.descarte
    requires c < |m.tableau| && k + 1 < |m.tableau[c]| && m.tableau[c][k] == m.seleccion[0]
    requires forall j :: 0 <= j < c ==> m.seleccion[0] !in m.tableau[j]
    requires m.seleccion[0] !in m.tableau[c][..k]
    ensures MoverFundacion(m, i).tableau[c] == m.tableau[c][..k] + m.tableau[c][k + 1..]
    ensures MoverFundacion(m, i).tableau[c][k] == m.tableau[c][k + 1]
  {
    var t := m.tableau;
    assert ColumnaDe(t, m.seleccion[0]) == c;
    RemoverPrimeraEn(t[c], k);
  }

  /** `moverATableau`'s guard: a selection, a column in range, a multi-card
      selection only when the rules allow it, and the placement rule on the
      destination as it is before the move. */
  predicate PuedeMoverATableau(m: Mesa, e: Estrategia, d: int)
  {
    && m.seleccion != []
    && 0 <= d < |m.tableau|
    && (|m.seleccion| > 1 ==> e.PermiteMoverMultiplesCartas())
    && e.PuedeColocarCarta(m.seleccion[0], m.tableau[d])
  }

  /** `moverCartasATableau` on the piles: every selected card leaves its
      place, then the selection is appended to column `d` in order. */
  function ColocarEnColumna(m: Mesa, xs: seq<Carta>, d: nat): (r: Mesa)
    requires d < |m.tableau|
    ensures |r.tableau| == |m.tableau|
    ensures |r.tableau[d]| >= |xs| && r.tableau[d][|r.tableau[d]| - |xs|..] == xs
  {
    var q := QuitarCartas(m, xs);
    q.(tableau := q.tableau[d := q.tableau[d] + xs])
  }

  /** A successful `moverATableau`: the cards move, the selection is cleared,
      one move is counted. */
  function MoverTableau(m: Mesa, d: int): (r: Mesa)
    requires 0 <= d < |m.tableau|
    ensures r.seleccion == [] && r.movimientos == m.movimientos + 1
    ensures r.mazo == m.mazo && r.fundaciones == m.fundaciones && |r.tableau| == |m.tableau|
    ensures |r.tableau[d]| >= |m.seleccion| && r.tableau[d][|r.tableau[d]| - |m.seleccion|..] == m.seleccion
  {
    ColocarEnColumna(m, m.seleccion, d).(seleccion := [], movimientos := m.movimientos + 1)
  }

  /** When every selected card still lies in the waste or the tableau (as
      often as it is selected), a move to the tableau keeps every card on the
      board exactly once, and the destination ends with the selection. */
  lemma MoverTableauConserva(m: Mesa, d: int)
    requires 0 <= d < |m.tableau| && multiset(m.seleccion) <= multiset(Origenes(m))
    ensures multiset(Todas(MoverTableau(m, d))) == multiset(Todas(m))
  {
    var xs := m.seleccion;
    var q := QuitarCartas(m, xs);
    var r := MoverTableau(m, d);
    assert multiset(Origenes(r)) == multiset(Origenes(m)) by {
      QuitarCartasMultiset(m, xs);
      AplanarAnexar(q.tableau, d, xs);
      assert r.tableau == q.tableau[d := q.tableau[d] + xs] && r.descarte == q.descarte;
    }
    TodasPartidas(r);
    TodasPartidas(m);
  }

  // ------------------------------------------------------- victory, scan

  /** `verificarVictoria`: the foundations hold as many cards as the deck. */
  predicate Victoria(m: Mesa, f: Fabrica)
  {
    SumaLongitudes(m.fundaciones) == f.NumeroValores() * f.NumeroPalos()
  }

  /** On a board that passes the integrity check, victory means stock, waste
      and tableau are all empty. */
  lemma VictoriaVaciaElResto(m: Mesa, f: Fabrica)
    requires Contadas(m) == f.NumeroValores() * f.NumeroPalos()
    ensures Victoria(m, f) <==> m.mazo == [] && m.descarte == [] && Aplanar(m.tableau) == []
  {
  }

  /** The suggestions for one card over foundations `0 .. k-1`. */
  function SugerenciasCarta(c: Carta, f: seq<seq<Carta>>, k: nat): seq<(Carta, int)>
    requires k <= |f|
  {
    if k == 0 then []
    else SugerenciasCarta(c, f, k - 1) + (if PuedeColocarEnFundacion(c, f[k - 1]) then [(c, k - 1)] else [])
  }

  /** `buscarMovimientosAutomaticos` without the text: for each card in turn,
      every foundation index 0..3 it may go to. */
  function Sugerencias(cs: seq<Carta>, f: seq<seq<Carta>>): seq<(Carta, int)>
    requires |f| >= 4
  {
    if cs == [] then [] else Sugerencias(cs[..|cs| - 1], f) + SugerenciasCarta(cs[|cs| - 1], f, 4)
  }

  /** Scanning one more card appends exactly that card's targets. */
  lemma SugerenciasAnadir(cs: seq<Carta>, c: Carta, f: seq<seq<Carta>>)
    requires |f| >= 4
    ensures Sugerencias(cs + [c], f) == Sugerencias(cs, f) + SugerenciasCarta(c, f, 4)
  {
    assert (cs + [c])[..|cs|] == cs;
  }

  lemma {:induction false} EnSugerenciasCarta(c: Carta, f: seq<seq<Carta>>, k: nat, x: Carta, i: int)
    requires k <= |f|
    ensures (x, i) in SugerenciasCarta(c, f, k) <==> x == c && 0 <= i < k && PuedeColocarEnFundacion(c, f[i])
  {
    if k > 0 {
      EnSugerenciasCarta(c, f, k - 1, x, i);
    }
  }

  /** A pair is suggested exactly when its card is among the scanned cards
      and the foundation rule lets it go to that foundation. */
  lemma {:induction false} EnSugerencias(cs: seq<Carta>, f: seq<seq<Carta>>, x: Carta, i: int)
    requires |f| >= 4
    ensures (x, i) in Sugerencias(cs, f) <==> x in cs && 0 <= i < 4 && PuedeColocarEnFundacion(x, f[i])
    decreases |cs|
  {
    if cs != [] {
      var p := cs[..|cs| - 1];
      EnSugerencias(p, f, x, i);
      EnSugerenciasCarta(cs[|cs| - 1], f, 4, x, i);
      assert cs == p + [cs[|cs| - 1]];
    }
  }
}
