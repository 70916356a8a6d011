/** Cards and the two card families (French and English deck) with their
    factories. A card's value and suit never change; only its face-up flag does. */
module Cartas {

  /** The colour class of a suit (the Java code uses `Color.RED` / `Color.BLACK`). */
  datatype Color = Rojo | Negro

  /** The two card families. They share names, symbols, colours and rules. */
  datatype Familia = Francesa | Inglesa

  /** Suits 1 and 2 (hearts, diamonds) are red; every other suit is black. */
  function ColorDePalo(palo: int): Color
  {
    if palo == 1 || palo == 2 then Rojo else Negro
  }

  const SIMBOLOS_FRANCESA: seq<string> := ["♠", "♥", "♦", "♣"]
  const NOMBRES_FRANCESA: seq<string> :=
    ["A", "2", "3", "4", "5", "6", "7", "8", "9", "10", "J", "Q", "K"]
  const SIMBOLOS_INGLESA: seq<string> := ["♠", "♥", "♦", "♣"]
  const NOMBRES_INGLESA: seq<string> :=
    ["A", "2", "3", "4", "5", "6", "7", "8", "9", "10", "J", "Q", "K"]

  function SimbolosDe(f: Familia): (s: seq<string>)
    ensures |s| == 4
  {
    match f
    case Francesa => SIMBOLOS_FRANCESA
    case Inglesa => SIMBOLOS_INGLESA
  }

  function NombresDe(f: Familia): (s: seq<string>)
    ensures |s| == 13
  {
    match f
    case Francesa => NOMBRES_FRANCESA
    case Inglesa => NOMBRES_INGLESA
  }

  /** A playing card. `valor` is 0 (ace) to 12 (king), `palo` 0 to 3.
      Identity is object identity: the Java code never overrides `equals`. */
  class Carta {
    const valor: int
    const palo: int
    const familia: Familia
    var volteada: bool

    /** A new card carries the given value and suit and lies face down. */
    constructor (valor: int, palo: int, familia: Familia)
      ensures this.valor == valor && this.palo == palo && this.familia == familia
      ensures !volteada
    {
      this.valor := valor;
      this.palo := palo;
      this.familia := familia;
      volteada := false;
    }

    /** Turns the card over: only the face-up flag changes. */
    method Voltear()
      modifies this
      ensures volteada == !old(volteada)
    {
      volteada := !volteada;
    }

    function ColorPalo(): Color
    {
      ColorDePalo(palo)
    }

    /** The suit symbol; the Java code indexes a four-entry array. */
    function SimboloPalo(): (s: string)
      requires 0 <= palo < 4
      ensures s == SimbolosDe(familia)[palo]
      ensures palo == 0 ==> s == "♠"
    {
      match familia
      case Francesa => SIMBOLOS_FRANCESA[palo]
      case Inglesa => SIMBOLOS_INGLESA[palo]
    }

    /** The value name; the Java code indexes a thirteen-entry array. */
    function NombreValor(): (s: string)
      requires 0 <= valor < 13
      ensures s == NombresDe(familia)[valor]
      ensures valor == 0 ==> s == "A"
      ensures valor == 12 ==> s == "K"
    {
      match familia
      case Francesa => NOMBRES_FRANCESA[valor]
      case Inglesa => NOMBRES_INGLESA[valor]
    }

    /** Tableau rule: only a king may start an empty column (`otra == null`);
        otherwise the colours must differ and this card must be one lower. */
    predicate PuedeColocarseEn(otra: Carta?)
    {
      if otra == null then valor == 12
      else ColorPalo() != otra.ColorPalo() && valor == otra.valor - 1
    }

    /** Foundation rule: same suit and exactly one higher. */
    predicate EsSiguienteEnSecuencia(otra: Carta)
    {
      palo == otra.palo && valor == otra.valor + 1
    }
  }

  lemma PuedeColocarseEnVacio(c: Carta)
    ensures c.PuedeColocarseEn(null) <==> c.valor == 12
  {
  }

  lemma PuedeColocarseEnCarta(c: Carta, otra: Carta)
    ensures c.PuedeColocarseEn(otra) <==>
      (ColorDePalo(c.palo) != ColorDePalo(otra.palo) && c.valor == otra.valor - 1)
  {
  }

  /** Two cards of the same suit have the same colour, so neither goes on the other. */
  lemma MismoPaloNoSeColoca(c: Carta, otra: Carta)
    requires c.palo == otra.palo
    ensures !c.PuedeColocarseEn(otra) && !otra.PuedeColocarseEn(c)
  {
  }

  /** Foundation succession is irreflexive and asymmetric. */
  lemma SiguienteIrreflexivoAsimetrico(a: Carta, b: Carta)
    ensures !a.EsSiguienteEnSecuencia(a)
    ensures a.EsSiguienteEnSecuencia(b) ==> !b.EsSiguienteEnSecuencia(a)
  {
  }

  /** The English family answers every lookup and rule like the French one. */
  lemma FamiliasCoinciden(a: Carta, b: Carta)
    requires a.valor == b.valor && a.palo == b.palo
    requires a.familia == Francesa && b.familia == Inglesa
    ensures a.ColorPalo() == b.ColorPalo()
    ensures 0 <= a.palo < 4 ==> a.SimboloPalo() == b.SimboloPalo()
    ensures 0 <= a.valor < 13 ==> a.NombreValor() == b.NombreValor()
    ensures forall o: Carta? :: a.PuedeColocarseEn(o) == b.PuedeColocarseEn(o)
    ensures forall o: Carta :: a.EsSiguienteEnSecuencia(o) == b.EsSiguienteEnSecuencia(o)
  {
  }

  /** The two concrete factories. */
  datatype Fabrica = FabricaFrancesa | FabricaInglesa {

    function FamiliaCreada(): Familia
    {
      match this
      case FabricaFrancesa => Francesa
      case FabricaInglesa => Inglesa
    }

    function NumeroValores(): int { 13 }

    function NumeroPalos(): int { 4 }

    function ColorPalo(palo: int): Color
    {
      ColorDePalo(palo)
    }

    /** A new face-down card of this factory's family. */
    method CrearCarta(valor: int, palo: int) returns (c: Carta)
      ensures fresh(c)
      ensures c.valor == valor && c.palo == palo && c.familia == FamiliaCreada()
      ensures !c.volteada
    {
      c := new Carta(valor, palo, FamiliaCreada());
    }

    /** A fresh copy of the four suit symbols: changing it affects no later call. */
    method GetSimbolosPalos() returns (a: array<string>)
      ensures fresh(a)
      ensures a[..] == SimbolosDe(FamiliaCreada()) && a.Length == NumeroPalos()
    {
      var s := SimbolosDe(FamiliaCreada());
      a := new string[4](i requires 0 <= i < 4 => s[i]);
    }

    /** A fresh copy of the thirteen value names. */
    method GetNombresValores() returns (a: array<string>)
      ensures fresh(a)
      ensures a[..] == NombresDe(FamiliaCreada()) && a.Length == NumeroValores()
    {
      var s := NombresDe(FamiliaCreada());
      a := new string[13](i requires 0 <= i < 13 => s[i]);
    }
  }

  /** A factory's suit colour is red exactly for suits 1 and 2, and is the
      colour of every card of that suit. */
  lemma ColorDeFabrica(f: Fabrica, palo: int)
    ensures f.ColorPalo(palo) == Rojo <==> palo == 1 || palo == 2
    ensures forall c: Carta :: c.palo == palo ==> c.ColorPalo() == f.ColorPalo(palo)
  {
  }

  /** Both factories describe a 13 x 4 = 52 card deck. */
  lemma TamanoBaraja(f: Fabrica)
    ensures f.NumeroValores() * f.NumeroPalos() == 52
  {
  }
}
