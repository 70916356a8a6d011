/** Scoring: three calculation formulas (classic, modern, Vegas) and two
    presentations wrapping a swappable formula (standard clamp, timed bonus).
    Times are elapsed milliseconds supplied by the caller. Java `int`/`long`
    overflow is not modelled: integers are unbounded. */
module Puntuacion {
  import opened Secuencias

  /** Java integer division, which truncates toward zero. */
  function DivJava(a: int, b: int): (q: int)
    requires b > 0
    ensures a >= 0 ==> q == a / b
    ensures a < 0 ==> q == -((-a) / b)
  {
    if a >= 0 then a / b else -((-a) / b)
  }

  /** The modern formula's time bonus: 10000 minus the whole elapsed seconds, floored at 0. */
  function BonoTiempo(tiempo: int): (b: int)
    ensures b >= 0
    ensures tiempo >= 0 ==> b <= 10000
    ensures tiempo >= 10000000 ==> b == 0
  {
    Max(0, 10000 - DivJava(tiempo, 1000))
  }

  datatype PuntuacionImpl = Clasica | Moderna | Vegas {

    function CalcularPuntos(movimientos: int, tiempo: int, cartasEnFundacion: int): int
    {
      match this
      case Clasica => cartasEnFundacion * 100 - movimientos * 2
      case Moderna => cartasEnFundacion * 150 + BonoTiempo(tiempo) - movimientos
      case Vegas => cartasEnFundacion * 5 - 52
    }

    function Descripcion(): string
    {
      match this
      case Clasica => "Clásica: +100 por carta en fundación, -2 por movimiento"
      case Moderna => "Moderna: +150 por carta, bonus por tiempo, -1 por movimiento"
      case Vegas => "Vegas: $5 por carta en fundación, -$52 inicial"
    }
  }

  /** Classic: +100 per foundation card, -2 per move, time ignored. */
  lemma ClasicaEfectos(m: int, t: int, t': int, f: int)
    ensures Clasica.CalcularPuntos(m, t, f) == Clasica.CalcularPuntos(m, t', f)
    ensures Clasica.CalcularPuntos(m + 1, t, f) == Clasica.CalcularPuntos(m, t, f) - 2
    ensures Clasica.CalcularPuntos(m, t, f + 1) == Clasica.CalcularPuntos(m, t, f) + 100
    ensures 2 * m > 100 * f ==> Clasica.CalcularPuntos(m, t, f) < 0
  {
  }

  /** Modern: +150 per foundation card, -1 per move. */
  lemma ModernaEfectos(m: int, t: int, f: int)
    ensures Moderna.CalcularPuntos(m + 1, t, f) == Moderna.CalcularPuntos(m, t, f) - 1
    ensures Moderna.CalcularPuntos(m, t, f + 1) == Moderna.CalcularPuntos(m, t, f) + 150
  {
  }

  /** Modern: the score never grows with elapsed time. */
  lemma ModernaNoCreceConElTiempo(m: int, t: int, t': int, f: int)
    requires 0 <= t <= t'
    ensures Moderna.CalcularPuntos(m, t', f) <= Moderna.CalcularPuntos(m, t, f)
  {
  }

  /** Modern: only whole seconds count. */
  lemma ModernaSegundosCompletos(m: int, s: nat, r: nat, r': nat, f: int)
    requires r < 1000 && r' < 1000
    ensures Moderna.CalcularPuntos(m, 1000 * s + r, f) == Moderna.CalcularPuntos(m, 1000 * s + r', f)
  {
    assert (1000 * s + r) / 1000 == s;
    assert (1000 * s + r') / 1000 == s;
  }

  /** Vegas: 5 per foundation card minus 52; nothing else counts. */
  lemma VegasEfectos(m: int, m': int, t: int, t': int, f: int)
    ensures Vegas.CalcularPuntos(m, t, f) == Vegas.CalcularPuntos(m', t', f)
    ensures Vegas.CalcularPuntos(m, t, 0) == -52
    ensures Vegas.CalcularPuntos(m, t, 52) == 208
    ensures Vegas.CalcularPuntos(m, t, f) > 0 <==> f >= 11
  {
  }

  /** `PuntuacionEstandar.calcularPuntuacionFinal`: the formula, floored at 0. */
  function FinalEstandar(impl: PuntuacionImpl, m: int, t: int, f: int): (r: int)
    ensures r >= 0
    ensures impl.CalcularPuntos(m, t, f) >= 0 ==> r == impl.CalcularPuntos(m, t, f)
    ensures impl.CalcularPuntos(m, t, f) < 0 ==> r == 0
  {
    Max(0, impl.CalcularPuntos(m, t, f))
  }

  /** `PuntuacionConTiempo.calcularPuntuacionFinal`: +1000 under five minutes,
      +500 under ten, then floored at 0. */
  function FinalConTiempo(impl: PuntuacionImpl, m: int, t: int, f: int): (r: int)
    ensures r >= 0
    ensures t < 300000 ==> r == Max(0, impl.CalcularPuntos(m, t, f) + 1000)
    ensures 300000 <= t < 600000 ==> r == Max(0, impl.CalcularPuntos(m, t, f) + 500)
    ensures t >= 600000 ==> r == FinalEstandar(impl, m, t, f)
    ensures r >= FinalEstandar(impl, m, t, f)
  {
    var base := impl.CalcularPuntos(m, t, f);
    var conBono := if t < 300000 then base + 1000 else if t < 600000 then base + 500 else base;
    Max(0, conBono)
  }

  /** `PuntuacionEstandar.mostrarEstadisticas`. */
  function EstadisticasEstandar(impl: PuntuacionImpl): (s: string)
    ensures |s| > 22 && s[..22] == "Puntuación Estándar - "
    ensures s[22..] == impl.Descripcion()
  {
    "Puntuación Estándar - " + impl.Descripcion()
  }

  /** The two presentations of the Java code (`PuntuacionEstandar`, `PuntuacionConTiempo`). */
  datatype Variante = Estandar | ConTiempo

  /** A scoring presentation holding a replaceable formula. `tiempoInicio`
      belongs to the timed presentation only and is not read by the score. */
  class SistemaPuntuacion {
    var implementacion: PuntuacionImpl
    const variante: Variante
    var tiempoInicio: int

    /** `ahora` is the clock reading the timed presentation stores at creation. */
    constructor (implementacion: PuntuacionImpl, variante: Variante, ahora: int)
      ensures this.implementacion == implementacion && this.variante == variante
      ensures variante == ConTiempo ==> tiempoInicio == ahora
    {
      this.implementacion := implementacion;
      this.variante := variante;
      tiempoInicio := ahora;
    }

    /** Later scores delegate to `x`; nothing else changes. */
    method SetImplementacion(x: PuntuacionImpl)
      modifies this
      ensures implementacion == x
      ensures tiempoInicio == old(tiempoInicio)
    {
      implementacion := x;
    }

    /** Restarts the timed presentation's clock; the formula is kept. */
    method ReiniciarTiempo(ahora: int)
      requires variante == ConTiempo
      modifies this
      ensures tiempoInicio == ahora
      ensures implementacion == old(implementacion)
    {
      tiempoInicio := ahora;
    }

    /** The final score: never negative, and at least what the standard clamp gives. */
    function CalcularPuntuacionFinal(m: int, t: int, f: int): (r: int)
      reads this
      ensures r >= 0
      ensures variante == Estandar ==> r == FinalEstandar(implementacion, m, t, f)
      ensures variante == ConTiempo ==> r == FinalConTiempo(implementacion, m, t, f)
      ensures r >= Max(0, implementacion.CalcularPuntos(m, t, f))
    {
      match variante
      case Estandar => FinalEstandar(implementacion, m, t, f)
      case ConTiempo => FinalConTiempo(implementacion, m, t, f)
    }
  }

  /** Example: with Vegas and fewer than 11 foundation cards the standard score is 0. */
  lemma VegasEstandarCero(m: int, t: int, f: int)
    requires f < 11
    ensures FinalEstandar(Vegas, m, t, f) == 0
  {
  }
}
