/** The three rule sets: classic Klondike, easy and hard. They share the
    tableau placement rule and differ in draw count and multi-card moves. */
module Estrategias {
  import opened Cartas

  datatype Estrategia = Klondike | Facil | Dificil {

    /** Placement on a tableau column: an empty column takes only a king;
        otherwise only the column's last card is consulted. */
    predicate PuedeColocarCarta(carta: Carta, destino: seq<Carta>)
    {
      if destino == [] then carta.valor == 12
      else
        var superior := destino[|destino| - 1];
        carta.ColorPalo() != superior.ColorPalo() && carta.valor == superior.valor - 1
    }

    /** Cards passed from stock to waste per draw. */
    function CartasAPasar(): (n: int)
      ensures n == 1 || n == 3
      ensures n == 1 <==> this == Facil
    {
      match this
      case Klondike => 3
      case Facil => 1
      case Dificil => 3
    }

    /** Whether a run of several cards may be selected and moved together. */
    predicate PermiteMoverMultiplesCartas()
    {
      match this
      case Klondike => true
      case Facil => true
      case Dificil => false
    }

    function Nombre(): string
    {
      match this
      case Klondike => "Klondike"
      case Facil => "Fácil"
      case Dificil => "Difícil"
    }
  }

  /** An empty destination accepts exactly the kings. */
  lemma ColumnaVaciaSoloRey(e: Estrategia, carta: Carta)
    ensures e.PuedeColocarCarta(carta, []) <==> carta.valor == 12
  {
  }

  /** Only the last card of a non-empty destination matters. */
  lemma SoloCuentaLaCima(e: Estrategia, carta: Carta, destino: seq<Carta>, otro: seq<Carta>)
    requires destino != [] && otro != []
    requires destino[|destino| - 1] == otro[|otro| - 1]
    ensures e.PuedeColocarCarta(carta, destino) == e.PuedeColocarCarta(carta, otro)
  {
  }

  /** The rule set's placement test is the card's own tableau rule applied to
      the column top (or to `null` for an empty column). */
  lemma ColocarSegunCarta(e: Estrategia, carta: Carta, destino: seq<Carta>)
    ensures e.PuedeColocarCarta(carta, destino) ==
      carta.PuedeColocarseEn(if destino == [] then null else destino[|destino| - 1])
  {
  }

  /** All three rule sets accept exactly the same placements. */
  lemma MismaReglaDeColocacion(carta: Carta, destino: seq<Carta>)
    ensures Klondike.PuedeColocarCarta(carta, destino) == Facil.PuedeColocarCarta(carta, destino)
    ensures Facil.PuedeColocarCarta(carta, destino) == Dificil.PuedeColocarCarta(carta, destino)
  {
  }

  /** Draw counts and multi-card permission of each rule set. */
  lemma ConstantesDeEstrategia()
    ensures Klondike.CartasAPasar() == 3 && Klondike.PermiteMoverMultiplesCartas()
    ensures Facil.CartasAPasar() == 1 && Facil.PermiteMoverMultiplesCartas()
    ensures Dificil.CartasAPasar() == 3 && !Dificil.PermiteMoverMultiplesCartas()
  {
  }
}
