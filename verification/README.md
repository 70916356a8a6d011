# Klondike solitaire engine in Dafny

This project models the rules engine of a Java Klondike solitaire game. The
engine is written around classic object-oriented patterns:

- **Cards and card families.** A card has a value 0..12, a suit 0..3 and a
  face-up flag. The French and English families behave the same, and each
  comes with a factory.
- **Rule sets.** Klondike, easy and hard share one tableau placement rule.
  They differ in the draw count and in whether a run of cards may move.
- **Scoring.** There are three formulas: classic, modern and Vegas. Two
  presentations wrap them: the standard one floors the score at 0, and the
  timed one adds a bonus and then floors.
- **Tableau cursors.** A column-major cursor skips empty columns. A face-up
  filter sits on top of it with one card of lookahead.
- **Board construction.** A board holds stock, waste, four foundations and
  seven columns. A step-by-step builder creates the deck, shuffles it and
  deals the triangle. A director fixes the order of the builder steps.
- **The game controller.** It handles draw and recycle, selection from waste
  or tableau, and moves to a foundation or to a column. A move flips the
  card it exposes. The controller also has the victory test, the card-count
  integrity check and the scan for foundation suggestions.

## Modelling approach

- **Form.** Mutable Java objects become Dafny classes: cards, the board, the
  builder, the director, the cursors, the scoring presentation and the
  controller. Methods carry `modifies` clauses, and loops carry invariants.
- **Rule sets, formulas and factories** are datatypes with member functions.
- **Specification against values.** Each controller operation is proved
  against a function on a value snapshot of the game, `Juego.Mesa`.
- **Properties of whole games** are lemmas on those functions. They cover:
  - card conservation;
  - how a stale selection breaks it;
  - the waste order after a recycle;
  - foundations staying ascending runs of one suit;
  - suggestions.
- **Cards are objects.** A card is compared by identity, as in the Java code,
  which never overrides `equals`. Flipping a card in the selection therefore
  flips the same card on the board.

## Model

| member | source | states |
|---|---|---|
| Cartas.Carta.constructor | src/main/java/AbstractFactory/Carta.java:23-28 | a new card carries the given value, suit and family and lies face down |
| Cartas.Carta.Voltear | src/main/java/AbstractFactory/Carta.java:30-32 | the face flag is negated; value and suit are constants and cannot change, so two flips restore the card |
| Cartas.Carta.SimboloPalo | src/main/java/AbstractFactory/CartaFrancesa.java:22-25 | for suits 0..3 the symbol is entry `palo` of the family's four symbols; suit 0 is spades |
| Cartas.Carta.NombreValor | src/main/java/AbstractFactory/CartaFrancesa.java:29-32 | for values 0..12 the name is entry `valor` of the thirteen names; 0 is "A" and 12 is "K" |
| Cartas.SimbolosDe | src/main/java/AbstractFactory/CartaFrancesaFactory.java:17 | each family has exactly four suit symbols |
| Cartas.NombresDe | src/main/java/AbstractFactory/CartaFrancesaFactory.java:18 | each family has exactly thirteen value names |
| Cartas.PuedeColocarseEnVacio | src/main/java/AbstractFactory/CartaFrancesa.java:43 | a card may start an empty column iff it is a king |
| Cartas.PuedeColocarseEnCarta | src/main/java/AbstractFactory/CartaFrancesa.java:44 | on a card: iff the suit colours differ and the value is exactly one lower |
| Cartas.MismoPaloNoSeColoca | src/main/java/AbstractFactory/CartaFrancesa.java:36-45 | two cards of the same suit never go on each other in either direction |
| Cartas.SiguienteIrreflexivoAsimetrico | src/main/java/AbstractFactory/CartaFrancesa.java:48-50 | foundation succession is irreflexive and asymmetric |
| Cartas.FamiliasCoinciden | src/main/java/AbstractFactory/CartaInglesa.java:19-45 | an English card answers colour, symbol, name, placement and succession like the French card of the same value and suit |
| Cartas.Fabrica.CrearCarta | src/main/java/AbstractFactory/CartaFrancesaFactory.java:20-24 | a new face-down card with the given value and suit, of the factory's family (English: CartaInglesaFactory.java lines 18-21) |
| Cartas.Fabrica.GetSimbolosPalos | src/main/java/AbstractFactory/CartaFrancesaFactory.java:26-29 | a fresh array, so changing it affects no later call, holding the four symbols; its length is the number of suits |
| Cartas.Fabrica.GetNombresValores | src/main/java/AbstractFactory/CartaFrancesaFactory.java:31-34 | a fresh array of the thirteen names; its length is the number of values |
| Cartas.ColorDeFabrica | src/main/java/AbstractFactory/CartaFrancesaFactory.java:36-39 | a factory's suit colour is red iff the suit is 1 or 2, and equals the colour of every card of that suit |
| Cartas.TamanoBaraja | src/main/java/AbstractFactory/CartaFrancesaFactory.java:41-49 | values times suits is 52 for both factories; the controller uses it to tie the 52 cards of a deal to the integrity check's expected total |
| Estrategias.Estrategia.CartasAPasar | src/main/java/Strategy/EstrategiaFacil.java:29-32 | the draw count is 1 or 3, and it is 1 exactly for the easy rule set |
| Estrategias.ColumnaVaciaSoloRey | src/main/java/Strategy/EstrategiaKlondike.java:19-21 | an empty destination accepts exactly the kings, under every rule set |
| Estrategias.SoloCuentaLaCima | src/main/java/Strategy/EstrategiaKlondike.java:23-25 | two non-empty destinations with the same last card give the same answer |
| Estrategias.ColocarSegunCarta | src/main/java/Strategy/EstrategiaKlondike.java:18-26 | the rule set's test is the card's own placement rule on the column top, or on null for an empty column |
| Estrategias.MismaReglaDeColocacion | src/main/java/Strategy/EstrategiaDificil.java:21-32 | Klondike, easy and hard accept exactly the same placements |
| Estrategias.ConstantesDeEstrategia | src/main/java/Strategy/EstrategiaDificil.java:35-50 | draw counts 3/1/3; runs may move under Klondike and easy, not under hard |
| Puntuacion.DivJava | src/main/java/Bridge/PuntuacionModerna.java:20 | Java's division truncates toward zero for negative dividends as well |
| Puntuacion.BonoTiempo | src/main/java/Bridge/PuntuacionModerna.java:20 | the time bonus is never negative, is at most 10000 for non-negative times, and is 0 from 10,000,000 ms on |
| Puntuacion.ClasicaEfectos | src/main/java/Bridge/PuntuacionClasica.java:18-20 | classic ignores time; a move costs 2 and a foundation card is worth 100; negative when 2m > 100f |
| Puntuacion.ModernaEfectos | src/main/java/Bridge/PuntuacionModerna.java:19-22 | modern: a move costs 1, a foundation card is worth 150 |
| Puntuacion.ModernaNoCreceConElTiempo | src/main/java/Bridge/PuntuacionModerna.java:20 | for non-negative times the modern score never grows as time passes |
| Puntuacion.ModernaSegundosCompletos | src/main/java/Bridge/PuntuacionModerna.java:20 | two times within the same whole second give the same modern score |
| Puntuacion.VegasEfectos | src/main/java/Bridge/PuntuacionVegas.java:19-21 | Vegas depends only on foundation cards: -52 for none, 208 for 52, positive iff at least 11 |
| Puntuacion.FinalEstandar | src/main/java/Bridge/PuntuacionEstandar.java:24-27 | the standard score is never negative, equals the formula when that is non-negative, and is 0 otherwise |
| Puntuacion.FinalConTiempo | src/main/java/Bridge/PuntuacionConTiempo.java:27-39 | never negative; +1000 before 300000 ms, +500 before 600000 ms, then the standard score; never below the standard score |
| Puntuacion.EstadisticasEstandar | src/main/java/Bridge/PuntuacionEstandar.java:30-33 | the standard statistics line is the fixed prefix followed by the formula's description |
| Puntuacion.VegasEstandarCero | src/main/java/Bridge/PuntuacionEstandar.java:26 | with Vegas and fewer than 11 foundation cards the standard score is 0 |
| Puntuacion.SistemaPuntuacion.constructor | src/main/java/Bridge/SistemaPuntuacion.java:22-24 | stores the given formula; the timed presentation records the start time |
| Puntuacion.SistemaPuntuacion.SetImplementacion | src/main/java/Bridge/SistemaPuntuacion.java:32-34 | later scores use the new formula; the start time is kept |
| Puntuacion.SistemaPuntuacion.ReiniciarTiempo | src/main/java/Bridge/PuntuacionConTiempo.java:50-52 | only the start time changes |
| Puntuacion.SistemaPuntuacion.CalcularPuntuacionFinal | src/main/java/Bridge/PuntuacionConTiempo.java:27-39 | dispatches to the standard or the timed score of the current formula; never negative and never below the floored formula |
| Iteradores.EnVolteadas | src/main/java/Iterator/CartasVolteadasIterator.java:35-44 | a card is yielded by the face-up filter iff it is in the base sequence and face up |
| Iteradores.TableauIterator.constructor | src/main/java/Iterator/TableauIterator.java:27-29 | a new cursor is at column 0, card 0: it still has the whole column-major flattening to produce |
| Iteradores.TableauIterator.HasNext | src/main/java/Iterator/TableauIterator.java:35-45 | true iff cards remain; it skips empty columns and consumes nothing, so repeated calls skip no card |
| Iteradores.TableauIterator.Next | src/main/java/Iterator/TableauIterator.java:51-60 | yields the first remaining card of the flattening and drops it; `None` when exhausted |
| Iteradores.TableauIterator.Reset | src/main/java/Iterator/TableauIterator.java:65-69 | a new pass yields the whole flattening again |
| Iteradores.CartasVolteadasIterator.constructor | src/main/java/Iterator/CartasVolteadasIterator.java:26-29 | primes the lookahead: the cards still to come are the face-up cards of the base's remaining cards |
| Iteradores.CartasVolteadasIterator.EncontrarSiguiente | src/main/java/Iterator/CartasVolteadasIterator.java:35-44 | caches the next face-up card, keeping the face-up cards still to come unchanged |
| Iteradores.CartasVolteadasIterator.BuscarVolteada | src/main/java/Iterator/CartasVolteadasIterator.java:37-43 | consumes base cards up to the first face-up one and returns it, or null when there is none |
| Iteradores.CartasVolteadasIterator.Tomar | src/main/java/Iterator/CartasVolteadasIterator.java:38-42 | one base card is consumed; a face-up card is the head of the filter, a face-down one leaves the filter unchanged |
| Iteradores.CartasVolteadasIterator.Mirar | src/main/java/Iterator/CartasVolteadasIterator.java:37 | the base's `hasNext` changes neither its remaining cards nor their face-up filter |
| Iteradores.CartasVolteadasIterator.HasNext | src/main/java/Iterator/CartasVolteadasIterator.java:50-53 | true iff a face-up card is still to come; consumes nothing |
| Iteradores.CartasVolteadasIterator.Next | src/main/java/Iterator/CartasVolteadasIterator.java:59-68 | yields the head of the face-up cards still to come and drops it; `None` when exhausted |
| Iteradores.CartasVolteadasIterator.Reset | src/main/java/Iterator/CartasVolteadasIterator.java:73-77 | a new pass yields the face-up cards of the whole flattening again |
| Tablero.TableroSolitario.constructor | src/main/java/Builder/TableroSolitario.java:35-43 | the board takes the piles and the factory as given |
| Tablero.TableroSolitario.CreateIterator | src/main/java/Builder/TableroSolitario.java:45-48 | a fresh cursor over the current tableau with the whole flattening still to come |
| Tablero.TableroSolitario.CreateCartasVolteadasIterator | src/main/java/Builder/TableroSolitario.java:50-52 | a fresh face-up filter yielding the face-up cards of the flattening, in order |
| Tablero.TableroSolitario.AddCarta | src/main/java/Builder/TableroSolitario.java:54-59 | appends to column 0 and grows the tableau count by one when there is a column; otherwise nothing changes |
| Tablero.TableroSolitario.GetCarta | src/main/java/Builder/TableroSolitario.java:65-75 | card `index` of the column-major order; null past the end; a negative index gives the first card |
| Tablero.TableroSolitario.Size | src/main/java/Builder/TableroSolitario.java:77-84 | the sum of the column lengths, which is the length of the flattening; other piles are not counted |
| Construccion.BarajaCompleta | src/main/java/Builder/TableroSolitarioConcreto.java:63-67 | the creation loops' (value, suit) pairs are 52, each pair of 0..12 x 0..3 exactly once |
| Construccion.Barajar | src/main/java/Builder/TableroSolitarioConcreto.java:69 | the shuffle returns a permutation of its input |
| Construccion.Reparto | src/main/java/Builder/TableroSolitarioConcreto.java:110-117 | column c receives the stock cards at n-1-T(c), n-2-T(c), ..., while the stock lasts (T = triangular number) |
| Construccion.Columnas | src/main/java/Builder/TableroSolitarioConcreto.java:109-122 | the seven dealt columns are those of `Reparto` |
| Construccion.PasoReparto | src/main/java/Builder/TableroSolitarioConcreto.java:111-118 | one deal step appends the stock's next card to the current column, or changes nothing once the stock is empty |
| Construccion.RepartoInicial | src/main/java/Builder/TableroSolitarioConcreto.java:109-122 | dealing 52 distinct cards keeps them all (stock plus columns is a permutation); column c has c+1 cards and only its top is turned |
| Construccion.StockSinCimas | src/main/java/Builder/TableroSolitarioConcreto.java:110-117 | none of the 24 cards left in the stock is a turned column top |
| Construccion.TableroInicial | src/main/java/Builder/DirectorTablero.java:41-49 | after a full deal: 24 stock cards, columns of 1..7, stock plus columns distinct and holding each (value, suit) pair once |
| Construccion.CarasIniciales | src/main/java/Builder/TableroSolitarioConcreto.java:114-116 | after the deal the stock is face down and each column shows only its top card |
| Construccion.TableroSolitarioConcreto.constructor | src/main/java/Builder/TableroSolitarioConcreto.java:33-36 | a new builder has the factory and empty piles |
| Construccion.TableroSolitarioConcreto.Reset | src/main/java/Builder/TableroSolitarioConcreto.java:44-51 | all four piles become empty |
| Construccion.TableroSolitarioConcreto.CrearBaraja | src/main/java/Builder/TableroSolitarioConcreto.java:59-73 | appends 52 new face-down cards, one per (value, suit) pair in some order; what was in the stock stays in front |
| Construccion.TableroSolitarioConcreto.CrearCartas | src/main/java/Builder/TableroSolitarioConcreto.java:61-67 | suit by suit, value by value: one new face-down card of the factory's family per pair, all distinct |
| Construccion.TableroSolitarioConcreto.InicializarFundaciones | src/main/java/Builder/TableroSolitarioConcreto.java:81-87 | appends four empty foundations; nothing else changes |
| Construccion.TableroSolitarioConcreto.InicializarTableau | src/main/java/Builder/TableroSolitarioConcreto.java:95-101 | appends seven empty columns; nothing else changes |
| Construccion.TableroSolitarioConcreto.RepartirCartasTableau | src/main/java/Builder/TableroSolitarioConcreto.java:108-122 | columns 0..6 gain their `Reparto` cards, the stock loses its last min(28, n) cards, and exactly the column tops are flipped |
| Construccion.TableroSolitarioConcreto.RepartirColumna | src/main/java/Builder/TableroSolitarioConcreto.java:110-120 | one pass of the outer deal loop: column `col` is completed and its top turned |
| Construccion.TableroSolitarioConcreto.RepartirFilas | src/main/java/Builder/TableroSolitarioConcreto.java:111-119 | the inner deal loop: rows 0..col of one column, only row col turned |
| Construccion.TableroSolitarioConcreto.RepartirFila | src/main/java/Builder/TableroSolitarioConcreto.java:112-118 | one row: pops a card when the stock is not empty, turning it over when it is the column's top row |
| Construccion.TableroSolitarioConcreto.SacarCarta | src/main/java/Builder/TableroSolitarioConcreto.java:112-117 | the stock's last card, if any, moves to the end of the column and is returned; null iff the stock is empty |
| Construccion.TableroSolitarioConcreto.Build | src/main/java/Builder/TableroSolitarioConcreto.java:129-132 | a new board holding exactly the builder's piles and factory |
| Construccion.DirectorTablero.constructor | src/main/java/Builder/DirectorTablero.java:23-25 | stores the builder |
| Construccion.DirectorTablero.SetBuilder | src/main/java/Builder/DirectorTablero.java:31-33 | later boards come from the new builder |
| Construccion.DirectorTablero.ConstruirTableroEstandar | src/main/java/Builder/DirectorTablero.java:41-49 | a fresh board: 24 face-down stock cards, empty waste, four empty foundations, seven columns of 1..7 showing only their top, stock plus tableau distinct new cards with each (value, suit) once |
| Construccion.DirectorTablero.PrepararPilas | src/main/java/Builder/DirectorTablero.java:42-46 | reset, deck, foundations and columns in that order: 52 new face-down cards, four empty foundations, seven empty columns |
| Construccion.DirectorTablero.RepartirPreparado | src/main/java/Builder/DirectorTablero.java:47 | the deal on a prepared builder keeps the first 24 cards in the stock, builds `Columnas` and turns exactly the tops |
| Juego.Contadas | src/main/java/Controller/SolitarioController.java:567-585 | the integrity count (tableau, stock, waste and foundation sizes) is the number of cards on the board |
| Juego.Pasar | src/main/java/Controller/SolitarioController.java:159-201 | nothing when stock and waste are empty; a recycle reverses the waste into the stock; otherwise up to n cards pass from the stock end to the waste end; one move either way |
| Juego.TomarDelFinal | src/main/java/Controller/SolitarioController.java:173-180 | the cards a draw takes plus the cards it leaves are the whole stock |
| Juego.PasarConserva | src/main/java/Controller/SolitarioController.java:159-201 | drawing and recycling neither create nor lose cards |
| Juego.ReciclarConservaOrden | src/main/java/Controller/SolitarioController.java:191-201 | after a recycle the next draw deals the old waste again from its bottom card, in its original order |
| Juego.SeleccionarDescarte | src/main/java/Controller/SolitarioController.java:246-257 | with an empty waste nothing changes; otherwise the selection becomes exactly the top waste card |
| Juego.Movibles | src/main/java/Controller/SolitarioController.java:125-152 | the clicked card alone, or the whole run from it to the top; the run only if the rule set allows runs and the run is chained |
| Juego.ColocarMantieneEscalera | src/main/java/Controller/SolitarioController.java:340-347 | placing by the foundation rule keeps a foundation an ascending one-suit run from the ace |
| Juego.ColumnaDe | src/main/java/Controller/SolitarioController.java:406-408 | the first column holding the card, or the number of columns iff no column holds it |
| Juego.QuitarCarta | src/main/java/Controller/SolitarioController.java:390-399 | a removal takes from the waste or else the tableau; stock, foundations, selection and count stay |
| Juego.QuitarCartas | src/main/java/Controller/SolitarioController.java:377-379 | removing several cards in order touches neither stock, foundations, selection nor count |
| Juego.QuitarDeTableauMultiset | src/main/java/Controller/SolitarioController.java:405-410 | removing a tableau card takes exactly one copy of it out of the tableau; a card not there changes nothing |
| Juego.QuitarCartaMultiset | src/main/java/Controller/SolitarioController.java:390-399 | a removal takes exactly one copy out of waste plus tableau, or changes nothing when the card is in neither |
| Juego.QuitarCartaSubconjunto | src/main/java/Controller/SolitarioController.java:390-410 | a removal never brings a new card into the tableau |
| Juego.ExpuestaEnTableau | src/main/java/Controller/SolitarioController.java:411-417 | the card a removal turns over was already in the tableau |
| Juego.QuitarCartasMultiset | src/main/java/Controller/SolitarioController.java:377-379 | removing a list of cards that waste and tableau hold takes exactly those cards out |
| Juego.ColocarEnFundacion | src/main/java/Controller/SolitarioController.java:353-362 | the card ends on top of foundation i |
| Juego.MoverFundacion | src/main/java/Controller/SolitarioController.java:265-288 | a successful foundation move puts the selected card on foundation i, leaves the other foundations and the stock alone, clears the selection and counts one move |
| Juego.MoverFundacionEscaleras | src/main/java/Controller/SolitarioController.java:340-362 | a move to a foundation keeps every foundation an ascending run of one suit |
| Juego.MoverFundacionConserva | src/main/java/Controller/SolitarioController.java:265-288 | when the selected card still lies in waste or tableau, the move keeps every card on the board exactly once |
| Juego.MoverFundacionObsoleta | src/main/java/Controller/SolitarioController.java:390-399 | when it does not (a stale selection), the board gains a second copy and the integrity count grows by one |
| Juego.CimaDescarteFueraDeTableau | src/main/java/Controller/SolitarioController.java:390-393 | on a board without duplicates the top waste card is not in the tableau |
| Juego.SeleccionObsoletaTrasReciclar | src/main/java/Controller/SolitarioController.java:159-201 | select the top waste ace, recycle, move it to an empty foundation: the ace is in the stock and on the foundation, one card too many |
| Juego.MoverFundacionDesdeElMedio | src/main/java/Controller/SolitarioController.java:405-410 | a card selected alone from the middle of its column leaves a column that closes over the gap, keeping the cards above it |
| Juego.ColocarEnColumna | src/main/java/Controller/SolitarioController.java:368-384 | after the removals column d ends with the moved cards, in order |
| Juego.MoverTableau | src/main/java/Controller/SolitarioController.java:296-324 | a successful tableau move ends column d with the selection, leaves stock and foundations alone, clears the selection and counts one move |
| Juego.MoverTableauConserva | src/main/java/Controller/SolitarioController.java:296-324 | when the selection lies in waste or tableau, the move keeps every card on the board exactly once |
| Juego.VictoriaVaciaElResto | src/main/java/Controller/SolitarioController.java:474-478 | on a board that passes the integrity check, victory iff stock, waste and tableau are empty |
| Juego.SugerenciasAnadir | src/main/java/Controller/SolitarioController.java:439-451 | scanning one more card appends exactly that card's suggestions |
| Juego.EnSugerenciasCarta | src/main/java/Controller/SolitarioController.java:442-450 | (card, i) is suggested for one card iff i is a foundation in range that accepts it |
| Juego.EnSugerencias | src/main/java/Controller/SolitarioController.java:434-456 | (card, i) is suggested iff the card was scanned, 0 <= i < 4 and foundation i accepts it |
| Controlador.RepartoCompleto | src/main/java/Controller/SolitarioController.java:59-64 | a freshly dealt board holds exactly 52 cards, so the constructor's integrity check passes |
| Controlador.SolitarioController.constructor | src/main/java/Controller/SolitarioController.java:47-65 | stores factory, rules and scoring; deals a standard board (face-down stock of 24, columns of 1..7 showing only their tops); empty selection, markers -1, zero moves, start time set; the integrity count is 52, values x suits; the scoring formula is kept and the timed clock starts at `ahora` |
| Controlador.SolitarioController.InicializarJuego | src/main/java/Controller/SolitarioController.java:81-90 | a new standard board (face-down stock of 24, columns of 1..7 showing only their tops) and zero moves; the integrity count is values x suits; the scoring formula is kept; the timed scoring's clock restarts and the standard one is untouched; the selection and the markers are kept as they were |
| Controlador.SolitarioController.PuedenMoverseEnConjunto | src/main/java/Controller/SolitarioController.java:96-119 | true iff every card from the index to the top is face up and chained to the next one |
| Controlador.SolitarioController.ObtenerCartasMovibles | src/main/java/Controller/SolitarioController.java:125-152 | the selection a click yields, as `Movibles` defines it |
| Controlador.SolitarioController.PasarCartasDelMazo | src/main/java/Controller/SolitarioController.java:159-185 | false iff stock and waste are empty; otherwise the board becomes `Pasar` of the old one with the rule set's draw count; drawn cards are face up, recycled cards face down, and no other card changes its face |
| Controlador.SolitarioController.PasarDelMazo | src/main/java/Controller/SolitarioController.java:173-180 | the draw loop moves the last min(n, stock) cards, last first, onto the waste end, face up; no card outside those drawn changes its face |
| Controlador.SolitarioController.ReciclarDescarte | src/main/java/Controller/SolitarioController.java:191-201 | the stock gains the waste reversed, face down; the waste empties; one move is counted |
| Controlador.SolitarioController.SeleccionarCartasTableau | src/main/java/Controller/SolitarioController.java:210-239 | out of range: false, no change; face-up card: selects `Movibles` and records the markers; face-down top: flips it and counts a move; face-down below the top: false |
| Controlador.SolitarioController.SeleccionarCartaDescarte | src/main/java/Controller/SolitarioController.java:246-257 | false iff the waste is empty; the state becomes `SeleccionarDescarte` of the old one |
| Controlador.SolitarioController.MoverAFundacion | src/main/java/Controller/SolitarioController.java:265-288 | true iff the guard holds; on success the state is `MoverFundacion` of the old one, the card is face up, the exposed card is turned and no other card flips; on failure nothing changes |
| Controlador.SolitarioController.LimpiarSeleccion | src/main/java/Controller/SolitarioController.java:330-334 | empties the selection and resets both markers to -1; nothing else changes |
| Controlador.SolitarioController.MoverCartaAFundacion | src/main/java/Controller/SolitarioController.java:353-362 | the state becomes `ColocarEnFundacion`; the card is face up; only the card it exposes is turned |
| Controlador.SolitarioController.RemoverCartaDeUbicacionActual | src/main/java/Controller/SolitarioController.java:390-399 | the state becomes `QuitarCarta`; only the exposed card is turned |
| Controlador.SolitarioController.RemoverCartaDeTableau | src/main/java/Controller/SolitarioController.java:405-427 | true iff the card is in the tableau; the first column holding it loses it, and the new top is turned face up; other piles stay |
| Controlador.SolitarioController.MoverATableau | src/main/java/Controller/SolitarioController.java:296-324 | true iff the guard holds; on success the state is `MoverTableau` of the old one, every moved card is face up, the exposed cards are turned and no other card flips; on failure nothing changes |
| Controlador.SolitarioController.MoverCartasATableau | src/main/java/Controller/SolitarioController.java:368-384 | the state becomes `ColocarEnColumna`; all moved cards are face up; only the exposed cards are turned |
| Controlador.SolitarioController.VoltearTodas | src/main/java/Controller/SolitarioController.java:370-374 | every card ends face up; cards already face up are untouched |
| Controlador.SolitarioController.RemoverCartas | src/main/java/Controller/SolitarioController.java:377-379 | the state becomes `QuitarCartas`; only the exposed cards are turned |
| Controlador.SolitarioController.BuscarMovimientosAutomaticos | src/main/java/Controller/SolitarioController.java:434-456 | the suggestions are `Sugerencias` of the face-up tableau cards in column-major order; no state changes |
| Controlador.SolitarioController.RecorrerVolteadas | src/main/java/Controller/SolitarioController.java:439-451 | the outer loop drains the face-up cursor and lists the suggestions of exactly the cards it had still to yield |
| Controlador.SolitarioController.SugerenciasPara | src/main/java/Controller/SolitarioController.java:442-450 | the inner loop lists, in order, every foundation index 0..3 that accepts the card |
| Controlador.SolitarioController.ContarCartasEnFundaciones | src/main/java/Controller/SolitarioController.java:462-468 | the number of foundation cards |
| Controlador.SolitarioController.VerificarVictoria | src/main/java/Controller/SolitarioController.java:474-478 | true iff the foundations hold values x suits cards (`Victoria`) |
| Controlador.SolitarioController.IncrementarMovimientos | src/main/java/Controller/SolitarioController.java:484-486 | one more move; nothing else changes |
| Controlador.SolitarioController.ReiniciarJuego | src/main/java/Controller/SolitarioController.java:488-499 | a new standard board with its faces, zero moves, same factory, rules and scoring formula; the timed clock restarts; the integrity check cannot fail; the selection is kept |
| Controlador.SolitarioController.CambiarTipoBaraja | src/main/java/Controller/SolitarioController.java:505-519 | the factory field ends equal to what it was; a new standard board with its faces is dealt, zero moves; the scoring formula is kept and the timed clock restarts; the integrity check cannot fail |
| Controlador.SolitarioController.CambiarEstrategia | src/main/java/Controller/SolitarioController.java:525-527 | only the rule set changes |
| Controlador.SolitarioController.CambiarSistemaPuntuacion | src/main/java/Controller/SolitarioController.java:533-535 | only the scoring presentation changes |
| Controlador.SolitarioController.ValidarEstadoJuego | src/main/java/Controller/SolitarioController.java:567-585 | true iff tableau, stock, waste and foundation counts add up to values x suits |
| Controlador.SolitarioController.ContarRestantes | src/main/java/Controller/SolitarioController.java:571-576 | the counting loop counts every card the cursor had still to yield |
| Controlador.SolitarioController.GetPuntuacion | src/main/java/Controller/SolitarioController.java:614-616 | the presentation's final score for the move count, the elapsed time up to `ahora` and the foundation count; never negative |

## Left out

- Clock and randomness are parameters. Every `System.currentTimeMillis()` reading is an `ahora` argument. `Collections.shuffle` is a Fisher-Yates shuffle driven by a sequence of draws (`azar`); only the permutation is claimed about it.
- Java `int`/`long` overflow is not modelled: integers are unbounded. This includes the `(int)` cast in the modern formula, which is exact for the times a game can reach.
- `java.awt.Color` becomes a two-valued datatype. `java.awt.Point` and `encontrarPosicionCarta` are not part of this model: they only feed the suggestion text.
- Text is not modelled: the controller's `toString`, `formatearTiempo`, the suggestion strings and the timed presentation's statistics line.
- Controlador.SolitarioController.BuscarMovimientosAutomaticos: it returns (card, foundation index) pairs in place of the suggestion strings, and has no column number.
- `getDescripcion` is modelled as a plain string function (`Descripcion`) without a contract.
- Removing a card from the tableau calls the scoring presentation and throws the result away. That call has no effect and is left out.
- `moverCartaAFundacion` calls `verificarVictoria` and ignores the result. The model makes the same call.
- `esVictoria` only calls `verificarVictoria`; it is covered by `VerificarVictoria` and has no member of its own.
- Getters are not modelled separately: the fields are read directly. This covers `getTablero`, `getMovimientos`, `getEstrategiaActual`, `getSistemaPuntuacion`, `getCartasSeleccionadas`, `getFactory`, the board's pile getters, `getTableauIterator`/`getCartasVolteadasIterator` and the card getters.
- `getTiempoTranscurrido` is just `ahora - tiempoInicio` and is inlined in `GetPuntuacion`.
- The default constructor is not modelled. It is the main constructor with the French factory, the Klondike rules and standard classic scoring.
- The Java interfaces are not modelled as such. This covers `Builder`, `EstrategiaJuego`, `CartaAbstractFactory`, `CartaCollection`, `CartaIterator` and `PuntuacionImpl`. Their implementations are closed datatypes (rule sets, formulas, factories) or concrete classes.
- The two scoring presentations are one class with a `variante` tag. The `instanceof` test in `inicializarJuego` becomes a test of that tag.
- Java lists are Dafny sequences, that is, values. Two places depend on this:
  - The builder hands its lists to the board; a later `reset` allocates new lists, so the board never sees builder changes.
  - A cursor keeps the tableau it was created on. The engine never changes the tableau while a cursor is in use.
- Some loops are split into helper methods with their own contracts, so each proof stays small; the behaviour is the same. The helpers are:
  - for the deal: `RepartirColumna`/`RepartirFilas`/`RepartirFila`/`SacarCarta`;
  - for the director: `PrepararPilas`/`RepartirPreparado`;
  - for the face-up filter: `BuscarVolteada`/`Tomar`/`Mirar`;
  - for the controller: `PasarDelMazo`, `VoltearTodas`, `RemoverCartas`, `RecorrerVolteadas`, `SugerenciasPara` and `ContarRestantes`.
- In `RemoverCartaDeTableau`, a loop first finds the first column that holds the card; that column is then changed. The result is the one the Java code's search-and-remove loop gives.
- Controlador.SolitarioController.BuscarMovimientosAutomaticos: the result is stated over the face-up tableau cards of the state the call starts in. The call changes no card, so this is the same state.
- Controlador.SolitarioController.CambiarTipoBaraja: modelled as written. Both branches store a factory of the kind already stored, and the director keeps the builder made with the original factory, so the dealt deck never changes family.
- The selection and the `columnaOrigen`/`indiceInicioSeleccion` markers are kept across draws, resets and deck changes, as in the Java code. The markers are written but never read. Conservation of cards is proved only when the selected cards still lie in waste or tableau; `Juego.SeleccionObsoletaTrasReciclar` shows what happens otherwise.
