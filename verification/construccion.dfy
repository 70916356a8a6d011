/** Stepwise construction of a board: the concrete builder and the director
    that fixes the order of its steps. */
module Construccion {
  import opened Secuencias
  import opened Cartas
  import opened Tablero

  /** The (value, suit) pair of each card, in order. */
  function Pares(s: seq<Carta>): (r: seq<(int, int)>)
    ensures |r| == |s|
    ensures forall i :: 0 <= i < |s| ==> r[i] == (s[i].valor, s[i].palo)
  {
    seq(|s|, i requires 0 <= i < |s| => (s[i].valor, s[i].palo))
  }

  lemma ParesConcat(a: seq<Carta>, b: seq<Carta>)
    ensures Pares(a + b) == Pares(a) + Pares(b)
  {
    assert forall i :: 0 <= i < |a + b| ==> Pares(a + b)[i] == (Pares(a) + Pares(b))[i];
  }

  /** Taking card `k` out of `t` takes its pair out of the pairs of `t`. */
  lemma ParesQuitar(t: seq<Carta>, k: nat)
    requires k < |t|
    ensures multiset(Pares(t)) == multiset(Pares(t[..k] + t[k + 1..])) + multiset{(t[k].valor, t[k].palo)}
  {
    var a, b, x := t[..k], t[k + 1..], t[k];
    assert t == a + ([x] + b);
    ParesConcat(a, [x] + b);
    ParesConcat([x], b);
    ParesConcat(a, b);
    assert Pares([x]) == [(x.valor, x.palo)];
  }

  /** Permuting cards permutes their pairs. */
  lemma {:induction false} ParesPermutacion(s: seq<Carta>, t: seq<Carta>)
    requires multiset(s) == multiset(t)
    ensures multiset(Pares(s)) == multiset(Pares(t))
    decreases |s|
  {
    if s == [] {
      assert |t| == |multiset(t)| == 0;
    } else {
      var x := s[0];
      assert x in multiset(t);
      var k :| 0 <= k < |t| && t[k] == x;
      var u := t[..k] + t[k + 1..];
      assert t == t[..k] + [x] + t[k + 1..];
      assert s == [x] + s[1..] && s[..0] + s[1..] == s[1..];
      assert multiset(s) == multiset(s[1..]) + multiset{x};
      assert multiset(t) == multiset(u) + multiset{x};
      CancelarMultiset(multiset(s[1..]), multiset(u), x);
      ParesPermutacion(s[1..], u);
      ParesQuitar(s, 0);
      ParesQuitar(t, k);
    }
  }

  /** The thirteen pairs of suit `p`, ace to king. */
  function PaloCompleto(p: int): seq<(int, int)>
  {
    seq(13, v requires 0 <= v < 13 => (v, p))
  }

  /** The pairs of suits `0 .. p-1`, suit by suit: the creation order of the deck. */
  function ParesHasta(p: nat): seq<(int, int)>
  {
    if p == 0 then [] else ParesHasta(p - 1) + PaloCompleto(p - 1)
  }

  /** One pair per value and suit of a 13 x 4 deck. */
  function ParesBaraja(): seq<(int, int)>
  {
    ParesHasta(4)
  }

  lemma {:induction false} ParesHastaContenido(p: nat)
    ensures |ParesHasta(p)| == 13 * p
    ensures forall v, q :: (v, q) in ParesHasta(p) <==> 0 <= v < 13 && 0 <= q < p
    ensures Distintas(ParesHasta(p))
  {
    if p > 0 {
      ParesHastaContenido(p - 1);
      var a, b := ParesHasta(p - 1), PaloCompleto(p - 1);
      forall v, q ensures (v, q) in b <==> 0 <= v < 13 && q == p - 1 {
        if 0 <= v < 13 && q == p - 1 {
          assert b[v] == (v, q);
        }
      }
      DistintasConcat(a, b);
    }
  }

  /** The deck holds each value 0..12 of each suit 0..3 exactly once. */
  lemma BarajaCompleta()
    ensures |ParesBaraja()| == 52
    ensures forall v, q :: (v, q) in ParesBaraja() <==> 0 <= v < 13 && 0 <= q < 4
    ensures forall v, q :: multiset(ParesBaraja())[(v, q)] == if 0 <= v < 13 && 0 <= q < 4 then 1 else 0
  {
    ParesHastaContenido(4);
    DistintasMultiset(ParesBaraja());
  }

  /** Java's `Collections.shuffle`: for i from the size down to 2, swap
      position i-1 with a drawn position in [0, i). The draws come from
      `azar`, each reduced into range; a missing draw counts as 0. */
  function Barajar<T>(s: seq<T>, azar: seq<int>): (r: seq<T>)
    ensures multiset(r) == multiset(s)
    decreases |s|
  {
    if |s| <= 1 then s
    else
      var i := |s| - 1;
      var j := if azar == [] then 0 else azar[0] % |s|;
      var t := s[i := s[j]][j := s[i]];
      IntercambioMultiset(s, i, j);
      assert t == t[..i] + [t[i]];
      Barajar(t[..i], if azar == [] then [] else azar[1..]) + [t[i]]
  }

  /** Swapping two positions keeps the multiset. */
  lemma IntercambioMultiset<T>(s: seq<T>, i: nat, j: nat)
    requires i < |s| && j < |s|
    ensures multiset(s[i := s[j]][j := s[i]]) == multiset(s)
  {
    if i != j {
      var t := s[i := s[j]][j := s[i]];
      assert multiset(s[i := s[j]]) == multiset(s) - multiset{s[i]} + multiset{s[j]};
      assert multiset(t) == multiset(s[i := s[j]]) - multiset{s[j]} + multiset{s[i]};
    }
  }

  /** Cards 0 + 1 + ... + c: how many a full deal puts in the columns before `c`. */
  function Triangular(c: nat): nat
  {
    if c == 0 then 0 else Triangular(c - 1) + c
  }

  lemma {:induction false} TriangularMonotona(a: nat, b: nat)
    requires a <= b
    ensures Triangular(a) <= Triangular(b)
    decreases b - a
  {
    if a < b {
      TriangularMonotona(a, b - 1);
    }
  }

  /** The tops of the complete columns among the first `k`: the cards the deal turns over. */
  function CimasHasta(m: seq<Carta>, k: nat): set<Carta>
  {
    if k == 0 then {}
    else CimasHasta(m, k - 1) + (if |Reparto(m, k - 1)| == k then {Reparto(m, k - 1)[k - 1]} else {})
  }

  function Cimas(m: seq<Carta>): set<Carta>
  {
    CimasHasta(m, 7)
  }

  /** How many cards column `c` receives when the stock holds `n` before the deal. */
  function Recibidas(n: nat, c: nat): nat
  {
    Min(c + 1, Max(0, n - Triangular(c)))
  }

  /** The cards column `c` receives, bottom to top, from a stock `m`:
      `m[n-1-T(c)]`, `m[n-2-T(c)]`, ... where T = `Triangular`. */
  function Reparto(m: seq<Carta>, c: nat): (r: seq<Carta>)
    ensures |r| == Recibidas(|m|, c)
    ensures forall i :: 0 <= i < |r| ==> r[i] == m[|m| - 1 - Triangular(c) - i]
  {
    seq(Recibidas(|m|, c), i requires 0 <= i < Recibidas(|m|, c) => m[|m| - 1 - Triangular(c) - i])
  }

  /** The tableau while the deal is at row `fila` of column `col`: earlier
      columns complete, column `col` holding its first `fila` cards (as far as
      the stock went), later columns untouched. */
  function TrasReparto(t0: seq<seq<Carta>>, m: seq<Carta>, col: nat, fila: nat): (r: seq<seq<Carta>>)
    ensures |r| == |t0|
  {
    seq(|t0|, c requires 0 <= c < |t0| =>
      if c < col then t0[c] + Reparto(m, c)
      else if c == col then t0[c] + Reparto(m, c)[..Min(fila, |Reparto(m, c)|)]
      else t0[c])
  }

  /** One step of the deal: with cards left, row `fila` of column `col` gets
      the next card from the end of the stock; without, nothing changes. */
  lemma PasoReparto(t0: seq<seq<Carta>>, m: seq<Carta>, col: nat, fila: nat)
    requires fila <= col < |t0|
    ensures Triangular(col) + fila < |m| ==>
      fila < |Reparto(m, col)| && Reparto(m, col)[fila] == m[|m| - 1 - Triangular(col) - fila]
      && TrasReparto(t0, m, col, fila + 1) ==
         TrasReparto(t0, m, col, fila)[col := TrasReparto(t0, m, col, fila)[col] + [m[|m| - 1 - Triangular(col) - fila]]]
    ensures Triangular(col) + fila >= |m| ==>
      TrasReparto(t0, m, col, fila + 1) == TrasReparto(t0, m, col, fila)
  {
    if Triangular(col) + fila < |m| {
      PasoRepartoConCartas(t0, m, col, fila);
    } else {
      PasoRepartoSinCartas(t0, m, col, fila);
    }
  }

  /** The step that takes a card: the column grows by the card at depth
      Triangular(col) + fila from the end of the stock. */
  lemma PasoRepartoConCartas(t0: seq<seq<Carta>>, m: seq<Carta>, col: nat, fila: nat)
    requires fila <= col < |t0| && Triangular(col) + fila < |m|
    ensures fila < |Reparto(m, col)| && Reparto(m, col)[fila] == m[|m| - 1 - Triangular(col) - fila]
    ensures TrasReparto(t0, m, col, fila + 1) ==
      TrasReparto(t0, m, col, fila)[col := TrasReparto(t0, m, col, fila)[col] + [m[|m| - 1 - Triangular(col) - fila]]]
  {
    var a, b := TrasReparto(t0, m, col, fila), TrasReparto(t0, m, col, fila + 1);
    var r := Reparto(m, col);
    assert r[..fila + 1] == r[..fila] + [r[fila]];
    assert b[col] == a[col] + [r[fila]];
  }

  /** The step past the end of the stock leaves the tableau as it is. */
  lemma PasoRepartoSinCartas(t0: seq<seq<Carta>>, m: seq<Carta>, col: nat, fila: nat)
    requires fila <= col < |t0| && Triangular(col) + fila >= |m|
    ensures TrasReparto(t0, m, col, fila + 1) == TrasReparto(t0, m, col, fila)
  {
  }

  /** Column `col` adds its top to the turned cards exactly when the stock
      still holds its last card. */
  lemma PasoCimas(m: seq<Carta>, col: nat)
    ensures CimasHasta(m, col + 1) == CimasHasta(m, col) + CimaColumna(m, col)
  {
  }

  /** The top of column `col` as a set: the card dealt as its row `col`, when
      the stock reaches that far; empty otherwise. */
  function CimaColumna(m: seq<Carta>, col: nat): set<Carta>
  {
    if Triangular(col) + col < |m| then {m[|m| - 1 - Triangular(col) - col]} else {}
  }

  /** Finishing column `col` is starting column `col + 1`. */
  lemma SiguienteColumna(t0: seq<seq<Carta>>, m: seq<Carta>, col: nat)
    requires col < |t0|
    ensures TrasReparto(t0, m, col, col + 1) == TrasReparto(t0, m, col + 1, 0)
  {
    var a, b := TrasReparto(t0, m, col, col + 1), TrasReparto(t0, m, col + 1, 0);
    assert Reparto(m, col)[..Min(col + 1, |Reparto(m, col)|)] == Reparto(m, col);
    assert b[col + 1..] == a[col + 1..] by {
      forall c | col + 1 <= c < |t0| ensures a[c] == b[c] {
        if c == col + 1 {
          assert Reparto(m, c)[..0] == [];
        }
      }
    }
  }

  /** After the seventh column, the tableau is the old one with each of the
      first seven columns extended by its share. */
  lemma TrasRepartoCompleto(t0: seq<seq<Carta>>, m: seq<Carta>)
    requires |t0| >= 7
    ensures forall c :: 0 <= c < 7 ==> TrasReparto(t0, m, 7, 0)[c] == t0[c] + Reparto(m, c)
    ensures forall c :: 7 <= c < |t0| ==> TrasReparto(t0, m, 7, 0)[c] == t0[c]
  {
    assert Reparto(m, 7)[..0] == [];
  }

  lemma InicioReparto(t0: seq<seq<Carta>>, m: seq<Carta>)
    requires |t0| > 0
    ensures TrasReparto(t0, m, 0, 0) == t0
  {
    var r := TrasReparto(t0, m, 0, 0);
    forall c | 0 <= c < |t0| ensures r[c] == t0[c] {
      if c == 0 {
        assert Reparto(m, 0)[..0] == [];
        assert t0[0] + [] == t0[0];
      }
    }
  }

  /** The builder: piles grown step by step, then handed to a board. */
  lemma TriangularSiete()
    ensures Triangular(7) == 28
  {
    assert Triangular(1) == 1 && Triangular(2) == 3 && Triangular(3) == 6;
    assert Triangular(4) == 10 && Triangular(5) == 15 && Triangular(6) == 21;
  }

  /** The seven columns a deal from stock `m` produces on empty columns. */
  function Columnas(m: seq<Carta>): (r: seq<seq<Carta>>)
    ensures |r| == 7
    ensures forall c :: 0 <= c < 7 ==> r[c] == Reparto(m, c)
  {
    seq(7, c requires 0 <= c < 7 => Reparto(m, c))
  }

  /** With at least 28 cards in the stock every column gets its full share. */
  lemma RepartoLleno(m: seq<Carta>, c: nat)
    requires |m| >= 28 && c < 7
    ensures |Reparto(m, c)| == c + 1
  {
    TriangularMonotona(c + 1, 7);
    TriangularSiete();
  }

  /** Read column after column, the first `k` full columns are the last
      Triangular(k) cards of the stock, from the end backwards. */
  lemma {:induction false} AplanarColumnas(m: seq<Carta>, k: nat)
    requires |m| >= 28 && k <= 7
    ensures Triangular(k) <= 28
    ensures |Aplanar(Columnas(m)[..k])| == Triangular(k)
    ensures forall i :: 0 <= i < Triangular(k) ==> Aplanar(Columnas(m)[..k])[i] == m[|m| - 1 - i]
  {
    TriangularMonotona(k, 7);
    TriangularSiete();
    if k == 0 {
      assert Columnas(m)[..0] == [];
    } else {
      AplanarColumnas(m, k - 1);
      AplanarPrefijo(Columnas(m), k - 1);
      RepartoLleno(m, k - 1);
    }
  }

  /** The turned cards are exactly the tops `m[|m|-1-T(c)-c]` of the complete
      columns among the first `k`. */
  lemma {:induction false} CimasIndices(m: seq<Carta>, k: nat, x: Carta)
    ensures x in CimasHasta(m, k) <==>
      exists c :: 0 <= c < k && Triangular(c) + c < |m| && x == m[|m| - 1 - Triangular(c) - c]
  {
    if k > 0 {
      var u := k - 1;
      CimasIndices(m, u, x);
      PasoCimas(m, u);
      if x in CimaColumna(m, u) {
        assert Triangular(u) + u < |m| && x == m[|m| - 1 - Triangular(u) - u];
      }
      if exists c :: 0 <= c < k && Triangular(c) + c < |m| && x == m[|m| - 1 - Triangular(c) - c] {
        var c :| 0 <= c < k && Triangular(c) + c < |m| && x == m[|m| - 1 - Triangular(c) - c];
        if c == u {
          assert x in CimaColumna(m, u);
        }
      }
    }
  }

  /** Row `j` below the top of column `c` never sits at the depth of a
      column top. */
  lemma IndicesDistintos(c: nat, j: nat, c': nat)
    requires j < c
    ensures Triangular(c) + j != Triangular(c') + c'
  {
    if c' < c {
      TriangularMonotona(c' + 1, c);
    } else if c < c' {
      TriangularMonotona(c + 1, c');
    }
  }

  /** The top of a full column is among the turned cards. */
  lemma TopeEnCimas(m: seq<Carta>, c: nat)
    requires |m| >= 28 && c < 7
    ensures |Reparto(m, c)| == c + 1 && Reparto(m, c)[c] in Cimas(m)
  {
    RepartoLleno(m, c);
    var x := Reparto(m, c)[c];
    CimasIndices(m, 7, x);
    assert 0 <= c < 7 && Triangular(c) + c < |m| && x == m[|m| - 1 - Triangular(c) - c];
  }

  /** With distinct cards, a row below the top of a full column is not
      among the turned cards. */
  lemma FueraDeCimas(m: seq<Carta>, c: nat, j: nat)
    requires Distintas(m) && |m| >= 28 && j < c < 7
    ensures |Reparto(m, c)| == c + 1 && Reparto(m, c)[j] !in Cimas(m)
  {
    RepartoLleno(m, c);
    var x := Reparto(m, c)[j];
    assert x == m[|m| - 1 - Triangular(c) - j];
    CimasIndices(m, 7, x);
    forall c' | 0 <= c' < 7 && Triangular(c') + c' < |m|
      ensures x != m[|m| - 1 - Triangular(c') - c']
    {
      IndicesDistintos(c, j, c');
      DistintasDistintos(m, |m| - 1 - Triangular(c) - j, |m| - 1 - Triangular(c') - c');
    }
  }

  /** In a full deal from distinct cards, row `j` of column `c` is turned
      over exactly when it is the column's top. */
  lemma CimaDeColumna(m: seq<Carta>, c: nat, j: nat)
    requires Distintas(m) && |m| >= 28 && j <= c < 7
    ensures |Reparto(m, c)| == c + 1
    ensures Reparto(m, c)[j] in Cimas(m) <==> j == c
  {
    if j == c {
      TopeEnCimas(m, c);
    } else {
      FueraDeCimas(m, c, j);
    }
  }

  /** A full deal of 52 distinct cards: 24 stay in the stock, and stock plus
      columns read in order is a permutation of the deck; each column holds
      c+1 cards with only its top turned. */
  lemma RepartoInicial(m: seq<Carta>)
    requires Distintas(m) && |m| == 52
    ensures multiset(m[..24] + Aplanar(Columnas(m))) == multiset(m)
    ensures forall c :: 0 <= c < 7 ==> |Columnas(m)[c]| == c + 1
    ensures forall c, j :: 0 <= c < 7 && 0 <= j < |Columnas(m)[c]| ==>
      (Columnas(m)[c][j] in Cimas(m) <==> j == c)
  {
    AplanarColumnas(m, 7);
    TriangularSiete();
    var a := Aplanar(Columnas(m));
    assert Columnas(m)[..7] == Columnas(m);
    assert a == Invertido(m[24..]);
    InvertidoMultiset(m[24..]);
    assert m == m[..24] + m[24..];
    forall c, j | 0 <= c < 7 && 0 <= j < |Columnas(m)[c]|
      ensures Columnas(m)[c][j] in Cimas(m) <==> j == c
    {
      RepartoLleno(m, c);
      CimaDeColumna(m, c, j);
    }
    forall c | 0 <= c < 7 ensures |Columnas(m)[c]| == c + 1 {
      RepartoLleno(m, c);
    }
  }

  /** The stock and columns a full deal leaves when it starts from 52
      distinct cards: 24 cards stay, every column holds its share with only
      its top among the turned cards, and nothing is lost or duplicated. */
  lemma TableroInicial(m: seq<Carta>)
    requires Distintas(m) && |m| == 52
    ensures |m[..24]| == 24 && forall x :: x in m[..24] ==> x in m && x !in Cimas(m)
    ensures forall c :: 0 <= c < 7 ==> |Columnas(m)[c]| == c + 1
    ensures forall c, j :: 0 <= c < 7 && 0 <= j < |Columnas(m)[c]| ==>
      Columnas(m)[c][j] in m && (Columnas(m)[c][j] in Cimas(m) <==> j == c)
    ensures forall x :: x in m[..24] + Aplanar(Columnas(m)) <==> x in m
    ensures Distintas(m[..24] + Aplanar(Columnas(m)))
    ensures multiset(Pares(m[..24] + Aplanar(Columnas(m)))) == multiset(Pares(m))
  {
    RepartoInicial(m);
    var todas := m[..24] + Aplanar(Columnas(m));
    ParesPermutacion(m, todas);
    DistintasPermutacion(m, todas);
    MismosElementos(m, todas);
    forall x | x in m[..24] ensures x !in Cimas(m) {
      var i :| 0 <= i < 24 && m[i] == x;
      StockSinCimas(m, i);
    }
  }

  /** The 24 cards left in the stock lie below every column top. */
  lemma StockSinCimas(m: seq<Carta>, i: nat)
    requires Distintas(m) && |m| == 52 && i < 24
    ensures m[i] !in Cimas(m)
  {
    CimasIndices(m, 7, m[i]);
    forall c | 0 <= c < 7
      ensures Triangular(c) + c < |m| && m[i] != m[|m| - 1 - Triangular(c) - c]
    {
      TriangularMonotona(c + 1, 7);
      TriangularSiete();
      assert i < |m| - 1 - Triangular(c) - c;
    }
  }

  /** A card on the dealt board (stock or columns) is a card of the deck. */
  lemma EnTablero(m: seq<Carta>, x: Carta)
    requires Distintas(m) && |m| == 52
    ensures x in m[..24] + Aplanar(Columnas(m)) ==> x in m
  {
    RepartoInicial(m);
    var todas := m[..24] + Aplanar(Columnas(m));
    if x in todas {
      assert x in multiset(todas);
    }
  }

  /** Faces and family of the dealt board, read in one state: when exactly
      the turned cards of `m` are face up, the stock is face down and each
      column shows only its top. */
  lemma CarasIniciales(m: seq<Carta>, f: Familia)
    requires Distintas(m) && |m| == 52
    requires forall x :: x in m ==> x.volteada == (x in Cimas(m)) && x.familia == f
    ensures forall x :: x in m[..24] ==> !x.volteada
    ensures forall c, j :: 0 <= c < 7 && 0 <= j < |Columnas(m)[c]| ==>
      (Columnas(m)[c][j].volteada <==> j == c)
    ensures forall x :: x in m[..24] + Aplanar(Columnas(m)) ==> x in m && x.familia == f
  {
    TableroInicial(m);
    forall x | x in m[..24] + Aplanar(Columnas(m)) ensures x in m && x.familia == f {
      EnTablero(m, x);
    }
  }

  class TableroSolitarioConcreto {
    var mazo: seq<Carta>
    var descarte: seq<Carta>
    var fundaciones: seq<seq<Carta>>
    var tableau: seq<seq<Carta>>
    const fabrica: Fabrica

    /** No card object occurs twice in the stock. */
    ghost predicate Valid()
      reads this
    {
      Distintas(mazo)
    }

    constructor (fabrica: Fabrica)
      ensures this.fabrica == fabrica && Valid()
      ensures mazo == [] && descarte == [] && fundaciones == [] && tableau == []
    {
      this.fabrica := fabrica;
      mazo, descarte, fundaciones, tableau := [], [], [], [];
    }

    /** Empties every pile, so the builder can be reused. */
    method Reset()
      modifies this
      ensures Valid()
      ensures mazo == [] && descarte == [] && fundaciones == [] && tableau == []
    {
      mazo, descarte, fundaciones, tableau := [], [], [], [];
    }

    /** Creates one face-down card per value and suit, shuffles them and
        appends them to the stock. */
    method CrearBaraja(azar: seq<int>)
      requires Valid()
      modifies this
      ensures Valid()
      ensures descarte == old(descarte) && fundaciones == old(fundaciones) && tableau == old(tableau)
      ensures |mazo| == |old(mazo)| + 52 && mazo[..|old(mazo)|] == old(mazo)
      ensures multiset(Pares(mazo[|old(mazo)|..])) == multiset(ParesBaraja())
      ensures forall k :: |old(mazo)| <= k < |mazo| ==>
        fresh(mazo[k]) && !mazo[k].volteada && mazo[k].familia == fabrica.FamiliaCreada()
    {
      var todas := CrearCartas();
      var barajadas := Barajar(todas, azar);
      ParesPermutacion(todas, barajadas);
      DistintasPermutacion(todas, barajadas);
      MismosElementos(todas, barajadas);
      DistintasConcat(mazo, barajadas);
      mazo := mazo + barajadas;
      assert mazo[|old(mazo)|..] == barajadas;
      forall k | |old(mazo)| <= k < |mazo|
        ensures fresh(mazo[k]) && !mazo[k].volteada && mazo[k].familia == fabrica.FamiliaCreada()
      {
        assert mazo[k] in barajadas;
      }
    }

    /** The creation loops: suit by suit, value by value, one new face-down
        card of the factory's family each. */
    method CrearCartas() returns (todas: seq<Carta>)
      ensures Pares(todas) == ParesBaraja() && Distintas(todas)
      ensures forall x :: x in todas ==>
        fresh(x) && !x.volteada && x.familia == fabrica.FamiliaCreada()
    {
      todas := [];
      for palo: nat := 0 to fabrica.NumeroPalos()
        invariant Pares(todas) == ParesHasta(palo)
        invariant Distintas(todas)
        invariant forall x :: x in todas ==>
          fresh(x) && !x.volteada && x.familia == fabrica.FamiliaCreada()
      {
        for valor := 0 to fabrica.NumeroValores()
          invariant Pares(todas) == ParesHasta(palo) + PaloCompleto(palo)[..valor]
          invariant Distintas(todas)
          invariant forall x :: x in todas ==>
            fresh(x) && !x.volteada && x.familia == fabrica.FamiliaCreada()
        {
          var c := fabrica.CrearCarta(valor, palo);
          assert PaloCompleto(palo)[..valor + 1] == PaloCompleto(palo)[..valor] + [(valor, palo)];
          ParesConcat(todas, [c]);
          todas := todas + [c];
        }
        assert PaloCompleto(palo)[..13] == PaloCompleto(palo);
      }
    }

    /** Appends one empty foundation per suit. */
    method InicializarFundaciones()
      modifies this
      ensures mazo == old(mazo) && descarte == old(descarte) && tableau == old(tableau)
      ensures fundaciones == old(fundaciones) + [[], [], [], []]
    {
      for i := 0 to fabrica.NumeroPalos()
        invariant mazo == old(mazo) && descarte == old(descarte) && tableau == old(tableau)
        invariant fundaciones == old(fundaciones) + [[], [], [], []][..i]
      {
        fundaciones := fundaciones + [[]];
      }
    }

    /** Appends seven empty tableau columns. */
    method InicializarTableau()
      modifies this
      ensures mazo == old(mazo) && descarte == old(descarte) && fundaciones == old(fundaciones)
      ensures tableau == old(tableau) + [[], [], [], [], [], [], []]
    {
      for i := 0 to 7
        invariant mazo == old(mazo) && descarte == old(descarte) && fundaciones == old(fundaciones)
        invariant tableau == old(tableau) + [[], [], [], [], [], [], []][..i]
      {
        tableau := tableau + [[]];
      }
    }

    /** Deals the triangle: column c receives up to c+1 cards popped from the
        end of the stock (fewer once the stock runs out), and the card dealt
        as row c of column c (a complete column's top) is turned over. */
    method RepartirCartasTableau()
      requires Valid() && |tableau| >= 7
      modifies this, mazo
      ensures Valid()
      ensures descarte == old(descarte) && fundaciones == old(fundaciones)
      ensures |tableau| == |old(tableau)|
      ensures mazo == old(mazo)[..|old(mazo)| - Min(28, |old(mazo)|)]
      ensures forall c :: 0 <= c < 7 ==> tableau[c] == old(tableau)[c] + Reparto(old(mazo), c)
      ensures forall c :: 7 <= c < |tableau| ==> tableau[c] == old(tableau)[c]
      ensures forall x :: x in old(mazo) ==> x.volteada == (old(x.volteada) != (x in Cimas(old(mazo))))
      ensures forall x :: x in mazo ==> x !in Cimas(old(mazo))
    {
      ghost var m := mazo;
      ghost var t0 := tableau;
      ghost var caras0 := map x | x in m :: x.volteada;
      ghost var giradas: set<Carta> := {};
      InicioReparto(t0, m);
      for col: nat := 0 to 7
        invariant mazo == m[..|m| - Min(Triangular(col), |m|)]
        invariant descarte == old(descarte) && fundaciones == old(fundaciones)
        invariant tableau == TrasReparto(t0, m, col, 0)
        invariant giradas == CimasHasta(m, col)
        invariant forall x :: x in giradas ==> x !in mazo
        invariant forall x :: x in m ==> x.volteada == (caras0[x] != (x in giradas))
      {
        giradas := RepartirColumna(col, m, t0, caras0, giradas);
      }
      TrasRepartoCompleto(t0, m);
      TriangularSiete();
      DistintasPrefijo(m, |m| - Min(28, |m|));
    }

    /** One column of the deal: rows 0 .. col, each popping a card while the
        stock lasts; row `col` is turned over. `caras0` holds the faces before
        the deal and `giradas` the cards turned so far. */
    method RepartirColumna(col: nat, ghost m: seq<Carta>, ghost t0: seq<seq<Carta>>,
                           ghost caras0: map<Carta, bool>, ghost giradas: set<Carta>)
        returns (ghost giradas': set<Carta>)
      requires col < 7 <= |t0| && Distintas(m)
      requires mazo == m[..|m| - Min(Triangular(col), |m|)]
      requires tableau == TrasReparto(t0, m, col, 0)
      requires giradas == CimasHasta(m, col)
      requires forall x :: x in giradas ==> x !in mazo
      requires forall x :: x in m ==> x in caras0 && x.volteada == (caras0[x] != (x in giradas))
      modifies this, m
      ensures mazo == m[..|m| - Min(Triangular(col + 1), |m|)]
      ensures descarte == old(descarte) && fundaciones == old(fundaciones)
      ensures tableau == TrasReparto(t0, m, col + 1, 0)
      ensures giradas' == CimasHasta(m, col + 1)
      ensures forall x :: x in giradas' ==> x !in mazo
      ensures forall x :: x in m ==> x.volteada == (caras0[x] != (x in giradas'))
    {
      ghost var n := |m|;
      ghost var k := n - Min(Triangular(col), n);
      ghost var cima := n - 1 - Triangular(col) - col;
      PasoCimas(m, col);
      RepartirFilas(col, m, t0);
      SiguienteColumna(t0, m, col);
      if 0 <= cima {
        assert cima < k && m[cima] in old(mazo) && m[cima] !in giradas;
        assert mazo == m[..cima] && m[cima] !in mazo;
      }
      giradas' := giradas + CimaColumna(m, col);
    }

    /** The row loop of one column: rows 0 .. col, each popping a card
        while the stock lasts; row `col` is turned over. */
    method RepartirFilas(col: nat, ghost m: seq<Carta>, ghost t0: seq<seq<Carta>>)
      requires col < 7 <= |t0|
      requires mazo == m[..|m| - Min(Triangular(col), |m|)]
      requires tableau == TrasReparto(t0, m, col, 0)
      modifies this, m
      ensures mazo == m[..|m| - Min(Triangular(col) + col + 1, |m|)]
      ensures descarte == old(descarte) && fundaciones == old(fundaciones)
      ensures tableau == TrasReparto(t0, m, col, col + 1)
      ensures forall x :: x in m ==> x.volteada == (old(x.volteada) != (x in CimaColumna(m, col)))
    {
      for fila: nat := 0 to col + 1
        invariant mazo == m[..|m| - Min(Triangular(col) + fila, |m|)]
        invariant descarte == old(descarte) && fundaciones == old(fundaciones)
        invariant tableau == TrasReparto(t0, m, col, fila)
        invariant forall x :: x in m ==>
          x.volteada == (old(x.volteada) != (fila > col && x in CimaColumna(m, col)))
      {
        RepartirFila(col, fila, m, t0);
      }
    }

    /** One row of the deal: pops the stock's last card, if any, onto column
        `col`, turning it over when it is row `col` (the column's top). */
    method RepartirFila(col: nat, fila: nat, ghost m: seq<Carta>, ghost t0: seq<seq<Carta>>)
      requires fila <= col < 7 <= |t0|
      requires mazo == m[..|m| - Min(Triangular(col) + fila, |m|)]
      requires tableau == TrasReparto(t0, m, col, fila)
      modifies this, m
      ensures mazo == m[..|m| - Min(Triangular(col) + fila + 1, |m|)]
      ensures descarte == old(descarte) && fundaciones == old(fundaciones)
      ensures tableau == TrasReparto(t0, m, col, fila + 1)
      ensures forall x :: x in m ==>
        x.volteada == (old(x.volteada) != (fila == col && x in CimaColumna(m, col)))
    {
      var carta := SacarCarta(col, fila, m, t0);
      if carta != null && fila == col {
        carta.Voltear();
      }
    }

    /** The pile moves of one row: the stock's last card, if any, leaves the
        stock and goes to the end of column `col`; it is returned (`null`
        when the stock is empty). */
    method SacarCarta(col: nat, fila: nat, ghost m: seq<Carta>, ghost t0: seq<seq<Carta>>)
        returns (carta: Carta?)
      requires fila <= col < 7 <= |t0|
      requires mazo == m[..|m| - Min(Triangular(col) + fila, |m|)]
      requires tableau == TrasReparto(t0, m, col, fila)
      modifies this
      ensures mazo == m[..|m| - Min(Triangular(col) + fila + 1, |m|)]
      ensures descarte == old(descarte) && fundaciones == old(fundaciones)
      ensures tableau == TrasReparto(t0, m, col, fila + 1)
      ensures carta != null <==> Triangular(col) + fila < |m|
      ensures carta != null ==> carta == m[|m| - 1 - Triangular(col) - fila]
    {
      ghost var n := |m|;
      ghost var p := Triangular(col) + fila;
      if mazo != [] {
        carta := mazo[|mazo| - 1];
        assert p < n && carta == m[n - 1 - p];
        PasoRepartoConCartas(t0, m, col, fila);
        assert mazo[..|mazo| - 1] == m[..n - (p + 1)];
        mazo := mazo[..|mazo| - 1];
        tableau := tableau[col := tableau[col] + [carta]];
      } else {
        carta := null;
        assert p >= n && Min(p + 1, n) == Min(p, n);
        PasoRepartoSinCartas(t0, m, col, fila);
      }
    }

    /** The board made of the current piles. */
    method Build() returns (t: TableroSolitario)
      ensures fresh(t)
      ensures t.mazo == mazo && t.descarte == descarte
      ensures t.fundaciones == fundaciones && t.tableau == tableau && t.fabrica == fabrica
    {
      t := new TableroSolitario(mazo, descarte, fundaciones, tableau, fabrica);
    }
  }

  /** Knows the order of the builder steps: reset, deck, foundations,
      tableau, deal, build. */
  class DirectorTablero {
    var builder: TableroSolitarioConcreto

    constructor (builder: TableroSolitarioConcreto)
      ensures this.builder == builder
    {
      this.builder := builder;
    }

    /** Later boards come from `builder`. */
    method SetBuilder(builder: TableroSolitarioConcreto)
      modifies this
      ensures this.builder == builder
    {
      this.builder := builder;
    }

    /** The standard Klondike layout: 24 face-down cards in the stock, an
        empty waste, four empty foundations and seven columns of 1 .. 7
        cards with only each top face up; stock plus tableau hold each value
        and suit exactly once, every card a distinct new object. */
    method ConstruirTableroEstandar(azar: seq<int>) returns (t: TableroSolitario)
      modifies builder
      ensures fresh(t) && t.fabrica == builder.fabrica
      ensures |t.mazo| == 24 && forall x :: x in t.mazo ==> !x.volteada
      ensures t.descarte == [] && t.fundaciones == [[], [], [], []]
      ensures |t.tableau| == 7 && forall c :: 0 <= c < 7 ==> |t.tableau[c]| == c + 1
      ensures forall c, j :: 0 <= c < 7 && 0 <= j < |t.tableau[c]| ==>
        (t.tableau[c][j].volteada <==> j == c)
      ensures Distintas(t.mazo + Aplanar(t.tableau))
      ensures multiset(Pares(t.mazo + Aplanar(t.tableau))) == multiset(ParesBaraja())
      ensures forall x :: x in t.mazo + Aplanar(t.tableau) ==> fresh(x) && x.familia == t.fabrica.FamiliaCreada()
    {
      var b := builder;
      PrepararPilas(b, azar);
      ghost var f := b.fabrica.FamiliaCreada();
      ghost var m := b.mazo;
      RepartirPreparado(b, m);
      t := b.Build();
      TableroInicial(m);
      CarasIniciales(m, f);
    }

    /** The first four builder steps: empty piles, a shuffled deck of 52 new
        face-down cards, four empty foundations and seven empty columns. */
    static method PrepararPilas(b: TableroSolitarioConcreto, azar: seq<int>)
      modifies b
      ensures b.Valid() && |b.mazo| == 52
      ensures b.descarte == [] && b.fundaciones == [[], [], [], []]
      ensures b.tableau == [[], [], [], [], [], [], []]
      ensures multiset(Pares(b.mazo)) == multiset(ParesBaraja())
      ensures forall k :: 0 <= k < |b.mazo| ==> fresh(b.mazo[k])
      ensures forall x :: x in b.mazo ==> !x.volteada && x.familia == b.fabrica.FamiliaCreada()
    {
      b.Reset();
      b.CrearBaraja(azar);
      assert b.mazo[0..] == b.mazo;
      b.InicializarFundaciones();
      b.InicializarTableau();
    }

    /** The deal on a prepared builder: the first 24 cards stay in the stock,
        the columns are those of `Columnas`, and exactly the column tops are
        turned face up. */
    static method RepartirPreparado(b: TableroSolitarioConcreto, ghost m: seq<Carta>)
      requires m == b.mazo && b.Valid() && |b.mazo| == 52 && b.tableau == [[], [], [], [], [], [], []]
      requires forall x :: x in b.mazo ==> !x.volteada
      modifies b, m
      ensures b.mazo == m[..24] && b.tableau == Columnas(m)
      ensures b.descarte == old(b.descarte) && b.fundaciones == old(b.fundaciones)
      ensures forall x :: x in m ==> x.volteada == (x in Cimas(m))
    {
      ghost var t0 := b.tableau;
      b.RepartirCartasTableau();
      assert b.tableau == Columnas(m) by {
        forall c | 0 <= c < 7 ensures b.tableau[c] == Columnas(m)[c] {
          assert t0[c] + Reparto(m, c) == Reparto(m, c);
        }
      }
    }
  }
}
