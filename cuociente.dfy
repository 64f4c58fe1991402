/**
 * The generic apportionment engine: a vote total, a seat total and the
 * parties in entry order; the simple (Hare) and Droop quotients; and the
 * two-pass largest-remainder assignment, which rewrites every party's seats
 * and remainder in place and returns the name -> seats table.
 */
module Cuociente {
  import opened Comun
  import opened MayorResiduo

  /** The errors the engine and the overlay raise. */
  datatype Error =
    | CurulesCero         // the seat total is 0 (ValueError)
    | MetodoInvalido      // neither "hare" nor "droop" (ValueError)
    | DivisionPorCero     // a quotient of 0 used as divisor (ZeroDivisionError)
    | CurulesIndefinidas  // a seat total that is None (TypeError)

  /** A party: its name, its votes, and the seats and remainder of the last run. */
  datatype Partido = Partido(nombre: string, votos: nat, curulesAsignadas: nat, residuo: real)

  datatype Metodo = Hare | Droop

  /** The name -> seats table a run returns, in entry order. */
  type Tabla = seq<(string, nat)>

  function Minuscula(c: char): char
  {
    if 'A' <= c <= 'Z' then (c as int + 32) as char else c
  }

  function Minusculas(s: string): string
  {
    seq(|s|, i requires 0 <= i < |s| => Minuscula(s[i]))
  }

  /** The method named by the string, compared in lower case; None for any other name. */
  function ElegirMetodo(metodo: string): (r: Option<Metodo>)
    ensures r == Some(Hare) <==> Minusculas(metodo) == "hare"
    ensures r == Some(Droop) <==> Minusculas(metodo) == "droop"
    ensures r.None? <==> Minusculas(metodo) != "hare" && Minusculas(metodo) != "droop"
  {
    if Minusculas(metodo) == "hare" then Some(Hare)
    else if Minusculas(metodo) == "droop" then Some(Droop)
    else None
  }

  /** Two names that differ only in the case of their letters choose the same method. */
  lemma MetodoSinMayusculas(s: string, t: string)
    requires |s| == |t|
    requires forall i :: 0 <= i < |s| ==> Minuscula(s[i]) == Minuscula(t[i])
    ensures ElegirMetodo(s) == ElegirMetodo(t)
  {
    assert Minusculas(s) == Minusculas(t);
  }

  /** Votes per seat: total votes over total seats; an error for zero seats. */
  function CuocienteSimple(totalVotos: nat, totalCurules: nat): (r: Result<real, Error>)
    ensures r.Err? <==> totalCurules == 0
    ensures r.Err? ==> r.error == CurulesCero
    ensures r.Ok? ==> r.value >= 0.0 && r.value * totalCurules as real == totalVotos as real
  {
    if totalCurules == 0 then Err(CurulesCero)
    else Ok(totalVotos as real / totalCurules as real)
  }

  /** The Hare quotient is the simple quotient. */
  function CuocienteHare(totalVotos: nat, totalCurules: nat): (r: Result<real, Error>)
    ensures r.Err? <==> totalCurules == 0
    ensures r.Err? ==> r.error == CurulesCero
    ensures r.Ok? ==> r.value >= 0.0 && r.value * totalCurules as real == totalVotos as real
  {
    CuocienteSimple(totalVotos, totalCurules)
  }

  /** The Droop quotient: total votes over seats plus one, plus one; an error for zero seats. */
  function CuocienteDroop(totalVotos: nat, totalCurules: nat): (r: Result<real, Error>)
    ensures r.Err? <==> totalCurules == 0
    ensures r.Err? ==> r.error == CurulesCero
    ensures r.Ok? ==> r.value >= 1.0 && (r.value - 1.0) * (totalCurules + 1) as real == totalVotos as real
  {
    if totalCurules == 0 then Err(CurulesCero)
    else Ok(totalVotos as real / (totalCurules + 1) as real + 1.0)
  }

  /** The quotient of the chosen method; zero seats fail for either method. */
  function CalcularCuociente(m: Metodo, totalVotos: nat, totalCurules: nat): (r: Result<real, Error>)
    ensures r.Err? <==> totalCurules == 0
    ensures r.Err? ==> r.error == CurulesCero
    ensures r.Ok? && m == Hare ==> r.value >= 0.0 && r.value * totalCurules as real == totalVotos as real
    ensures r.Ok? && m == Droop ==> r.value >= 1.0 && (r.value - 1.0) * (totalCurules + 1) as real == totalVotos as real
    ensures r.Ok? ==> (r.value == 0.0 <==> m == Hare && totalVotos == 0)
  {
    match m
    case Hare => CuocienteHare(totalVotos, totalCurules)
    case Droop => CuocienteDroop(totalVotos, totalCurules)
  }

  /** The Droop quotient is at most the Hare quotient exactly when V >= S * (S + 1). */
  lemma DroopFrenteAHare(totalVotos: nat, totalCurules: nat)
    requires totalCurules > 0
    ensures CuocienteDroop(totalVotos, totalCurules).Ok? && CuocienteHare(totalVotos, totalCurules).Ok?
    ensures CuocienteDroop(totalVotos, totalCurules).value <= CuocienteHare(totalVotos, totalCurules).value
        <==> totalVotos >= totalCurules * (totalCurules + 1)
  {
    var v, s := totalVotos as real, totalCurules as real;
    var h := CuocienteHare(totalVotos, totalCurules).value;
    var d := CuocienteDroop(totalVotos, totalCurules).value;
    var k := s * (s + 1.0);
    assert k > 0.0 by {
      MulMenor(0.0, s, s + 1.0);
    }
    assert h * k == v * s + v by {
      assert h * k == (h * s) * (s + 1.0);
    }
    assert d * k == v * s + k by {
      assert d * k == (d * (s + 1.0)) * s;
      assert d * (s + 1.0) == v + s + 1.0;
    }
    CompararPorProducto(d, h, k, v * s, v);
    assert (totalCurules * (totalCurules + 1)) as real == k;
  }

  /** With d * k == c + k and h * k == c + v for a positive k: d <= h exactly when k <= v. */
  lemma CompararPorProducto(d: real, h: real, k: real, c: real, v: real)
    requires k > 0.0 && d * k == c + k && h * k == c + v
    ensures d <= h <==> k <= v
  {
    if d <= h {
      MulMenorIgual(d, h, k);
    }
    if k <= v {
      MulCancela(d, h, k);
    }
  }

  /** A party's share of the votes in percent; 0 when no vote was cast. */
  function PorcentajeVotos(totalVotos: nat, p: Partido): (r: real)
    ensures totalVotos == 0 ==> r == 0.0
    ensures totalVotos > 0 ==> r * totalVotos as real == p.votos as real * 100.0
    ensures p.votos <= totalVotos ==> 0.0 <= r <= 100.0
  {
    if totalVotos == 0 then 0.0
    else
      var r := p.votos as real / totalVotos as real * 100.0;
      assert p.votos <= totalVotos ==> r <= 100.0 by {
        if p.votos <= totalVotos {
          DivMonotona(p.votos as real, totalVotos as real, totalVotos as real);
        }
      }
      r
  }

  function Votos(ps: seq<Partido>): seq<nat>
  {
    seq(|ps|, i requires 0 <= i < |ps| => ps[i].votos)
  }

  function Reiniciado(p: Partido): Partido
  {
    p.(curulesAsignadas := 0, residuo := 0.0)
  }

  function Reiniciados(ps: seq<Partido>): seq<Partido>
  {
    seq(|ps|, i requires 0 <= i < |ps| => Reiniciado(ps[i]))
  }

  /** The parties after a completed run: largest-remainder seats and remainders. */
  function Repartidos(ps: seq<Partido>, q: real, totalCurules: nat): seq<Partido>
    requires q > 0.0
  {
    var c := Curules(Votos(ps), q, totalCurules);
    var res := Residuos(Votos(ps), q);
    seq(|ps|, i requires 0 <= i < |ps| => ps[i].(curulesAsignadas := c[i], residuo := res[i]))
  }

  /** The parties after the first pass: floor seats and remainders under q. */
  function ConPisos(ps: seq<Partido>, q: real): seq<Partido>
    requires q > 0.0
  {
    seq(|ps|, i requires 0 <= i < |ps| =>
      ps[i].(curulesAsignadas := Piso(ps[i].votos, q), residuo := Residuo(ps[i].votos, q)))
  }

  function ResiduosDe(ps: seq<Partido>): seq<real>
  {
    seq(|ps|, i requires 0 <= i < |ps| => ps[i].residuo)
  }

  /** The parties after the second pass: one more seat for those ranked below k. */
  function ConExtras(ps: seq<Partido>, k: int): seq<Partido>
  {
    seq(|ps|, i requires 0 <= i < |ps| =>
      if Rango(ResiduosDe(ps), i) < k then ps[i].(curulesAsignadas := ps[i].curulesAsignadas + 1) else ps[i])
  }

  /** Reset, first pass and (when seats are missing) second pass compute Repartidos. */
  lemma PasadasReparten(ps: seq<Partido>, q: real, totalCurules: nat)
    requires q > 0.0
    ensures var uno := ConPisos(Reiniciados(ps), q);
            var k := totalCurules - Suma(Pisos(Votos(ps), q));
            (if k > 0 then ConExtras(uno, k) else uno) == Repartidos(ps, q, totalCurules)
  {
    var uno := ConPisos(Reiniciados(ps), q);
    var votos := Votos(ps);
    assert ResiduosDe(uno) == Residuos(votos, q);
    if totalCurules - Suma(Pisos(votos, q)) <= 0 {
      CurulesSinRestantes(votos, q, totalCurules);
    }
  }

  /**
   * A run does not depend on what earlier runs left behind: parties with the
   * same names and votes end in the same state, whatever their old seats
   * and remainders.
   */
  lemma RepartidosOlvidaPrevio(ps: seq<Partido>, otros: seq<Partido>, q: real, totalCurules: nat)
    requires q > 0.0
    requires |ps| == |otros|
    requires forall i :: 0 <= i < |ps| ==> ps[i].nombre == otros[i].nombre && ps[i].votos == otros[i].votos
    ensures Repartidos(ps, q, totalCurules) == Repartidos(otros, q, totalCurules)
  {
    assert Votos(ps) == Votos(otros);
  }

  function TablaDe(ps: seq<Partido>): Tabla
  {
    seq(|ps|, i requires 0 <= i < |ps| => (ps[i].nombre, ps[i].curulesAsignadas))
  }

  class CuocienteElectoral {
    const totalVotosValidos: nat
    const totalCurules: nat
    var partidos: seq<Partido>

    constructor (totalVotosValidos: nat, totalCurules: nat)
      ensures this.totalVotosValidos == totalVotosValidos
      ensures this.totalCurules == totalCurules
      ensures partidos == []
    {
      this.totalVotosValidos := totalVotosValidos;
      this.totalCurules := totalCurules;
      partidos := [];
    }

    /** Appends a party with no seats and no remainder. */
    method AgregarPartido(nombre: string, votos: nat)
      modifies this
      ensures partidos == old(partidos) + [Partido(nombre, votos, 0, 0.0)]
    {
      partidos := partidos + [Partido(nombre, votos, 0, 0.0)];
    }

    /**
     * Assigns the seats by the named method.  An unknown method or a zero seat
     * total fails before any party is touched; otherwise every party is reset,
     * then given its floor seats and remainder, and the seats still missing go
     * to the first parties of the stable sort by remainder, largest first.  A
     * zero quotient fails at the first party, after the reset.
     */
    method AsignarCurulesPorCuociente(metodo: string) returns (r: Result<Tabla, Error>)
      modifies this
      ensures ElegirMetodo(metodo).None? ==> r == Err(MetodoInvalido) && partidos == old(partidos)
      ensures ElegirMetodo(metodo).Some? && totalCurules == 0 ==>
                r == Err(CurulesCero) && partidos == old(partidos)
      ensures ElegirMetodo(metodo).Some? && totalCurules > 0 ==>
                var q := CalcularCuociente(ElegirMetodo(metodo).value, totalVotosValidos, totalCurules).value;
                q >= 0.0 &&
                (q == 0.0 ==> partidos == Reiniciados(old(partidos)) &&
                              r == (if old(partidos) == [] then Ok([]) else Err(DivisionPorCero))) &&
                (q > 0.0 ==> partidos == Repartidos(old(partidos), q, totalCurules) &&
                             r == Ok(TablaDe(partidos)))
    {
      var m := ElegirMetodo(metodo);
      if m.None? {
        return Err(MetodoInvalido);
      }
      var cq := CalcularCuociente(m.value, totalVotosValidos, totalCurules);
      if cq.Err? {
        return Err(cq.error);
      }
      var q := cq.value;
      ghost var inicial := old(partidos);
      Reiniciar();
      if q == 0.0 {
        // votos / 0.0 raises at the first party
        if |partidos| > 0 {
          return Err(DivisionPorCero);
        }
        return Ok([]);
      }
      assert Votos(partidos) == Votos(inicial);
      var asignadas := AsignarPorCuociente(q);
      ghost var uno := partidos;
      assert uno == ConPisos(Reiniciados(inicial), q);
      var restantes := totalCurules - asignadas;
      assert restantes == totalCurules - Suma(Pisos(Votos(inicial), q));
      PasadasReparten(inicial, q, totalCurules);
      if restantes > 0 {
        AsignarPorResiduos(restantes);
        assert partidos == ConExtras(uno, restantes);
      }
      assert partidos == Repartidos(inicial, q, totalCurules);
      r := Ok(TablaDe(partidos));
    }

    /** Resets every party's seats and remainder. */
    method Reiniciar()
      modifies this
      ensures partidos == Reiniciados(old(partidos))
    {
      var i := 0;
      while i < |partidos|
        invariant 0 <= i <= |partidos| == |old(partidos)|
        invariant forall j :: 0 <= j < i ==> partidos[j] == Reiniciado(old(partidos)[j])
        invariant forall j :: i <= j < |partidos| ==> partidos[j] == old(partidos)[j]
      {
        partidos := partidos[i := Reiniciado(partidos[i])];
        i := i + 1;
      }
    }

    /** First pass: every party's floor seats and remainder; returns the floor seats' sum. */
    method AsignarPorCuociente(q: real) returns (asignadas: int)
      requires q > 0.0
      modifies this
      ensures partidos == ConPisos(old(partidos), q)
      ensures asignadas == Suma(Pisos(Votos(old(partidos)), q))
    {
      ghost var votos := Votos(partidos);
      asignadas := 0;
      var i := 0;
      while i < |partidos|
        invariant 0 <= i <= |partidos| == |votos|
        invariant forall j :: 0 <= j < i ==> partidos[j] == ConPisos(old(partidos), q)[j]
        invariant forall j :: i <= j < |partidos| ==> partidos[j] == old(partidos)[j]
        invariant asignadas == Suma(Pisos(votos, q)[..i])
      {
        var p := partidos[i];
        var c := Piso(p.votos, q);
        partidos := partidos[i := p.(curulesAsignadas := c, residuo := Residuo(p.votos, q))];
        assert Pisos(votos, q)[..i + 1][..i] == Pisos(votos, q)[..i];
        asignadas := asignadas + c;
        i := i + 1;
      }
      assert Pisos(votos, q)[..i] == Pisos(votos, q);
    }

    /**
     * Second pass: one more seat for each of the first `restantes` parties of
     * the stable sort by remainder, largest first, i.e. for each party whose
     * rank is below `restantes`.
     */
    method AsignarPorResiduos(restantes: int)
      modifies this
      ensures partidos == ConExtras(old(partidos), restantes)
    {
      var ps := partidos;
      var residuos := ResiduosDe(ps);
      var i := 0;
      while i < |partidos|
        invariant 0 <= i <= |partidos| == |ps|
        invariant forall j :: 0 <= j < i ==> partidos[j] == ConExtras(ps, restantes)[j]
        invariant forall j :: i <= j < |partidos| ==> partidos[j] == ps[j]
      {
        if Rango(residuos, i) < restantes {
          partidos := partidos[i := partidos[i].(curulesAsignadas := partidos[i].curulesAsignadas + 1)];
        }
        i := i + 1;
      }
    }
  }

  /** Sum of a six-entry sequence, written out. */
  lemma SumaSeis(s: seq<int>)
    requires |s| == 6
    ensures Suma(s) == s[0] + s[1] + s[2] + s[3] + s[4] + s[5]
  {
    assert s == s[..5] + [s[5]];
    SumaAgregar(s[..5], s[5]);
    assert s[..5] == s[..4] + [s[4]];
    SumaAgregar(s[..4], s[4]);
    assert s[..4] == s[..3] + [s[3]];
    SumaAgregar(s[..3], s[3]);
    assert s[..3] == s[..2] + [s[2]];
    SumaAgregar(s[..2], s[2]);
    assert s[..2] == s[..1] + [s[1]];
    SumaAgregar(s[..1], s[1]);
    assert s[..1] == [] + [s[0]];
    SumaAgregar([], s[0]);
  }

  function Uno(b: bool): nat { if b then 1 else 0 }

  /** The rank of a party among six, written out as a count of the parties ranked before it. */
  lemma RangoSeis(res: seq<real>, i: int)
    requires |res| == 6
    ensures Rango(res, i) == Uno(Antes(res, 0, i)) + Uno(Antes(res, 1, i)) + Uno(Antes(res, 2, i))
                           + Uno(Antes(res, 3, i)) + Uno(Antes(res, 4, i)) + Uno(Antes(res, 5, i))
  {
    assert CuentaAntes(res, i, 1) == Uno(Antes(res, 0, i));
    assert CuentaAntes(res, i, 2) == CuentaAntes(res, i, 1) + Uno(Antes(res, 1, i));
    assert CuentaAntes(res, i, 3) == CuentaAntes(res, i, 2) + Uno(Antes(res, 2, i));
    assert CuentaAntes(res, i, 4) == CuentaAntes(res, i, 3) + Uno(Antes(res, 3, i));
    assert CuentaAntes(res, i, 5) == CuentaAntes(res, i, 4) + Uno(Antes(res, 4, i));
    assert CuentaAntes(res, i, 6) == CuentaAntes(res, i, 5) + Uno(Antes(res, 5, i));
  }

  /**
   * The demonstration election: one million votes, ten seats, Hare.  The
   * quotient is 100000, the floor seats 3, 2, 1, 1, 0, 0 and the remainders
   * 50000, 80000, 50000, 20000, 80000, 20000; the three missing seats go, in
   * stable order, to Conservador, Polo and Liberal.
   */
  lemma EjemploHare()
    ensures CuocienteHare(1000000, 10) == Ok(100000.0)
    ensures Pisos([350000, 280000, 150000, 120000, 80000, 20000], 100000.0) == [3, 2, 1, 1, 0, 0]
    ensures Residuos([350000, 280000, 150000, 120000, 80000, 20000], 100000.0)
         == [50000.0, 80000.0, 50000.0, 20000.0, 80000.0, 20000.0]
    ensures Curules([350000, 280000, 150000, 120000, 80000, 20000], 100000.0, 10) == [4, 3, 1, 1, 1, 0]
  {
    var votos: seq<nat> := [350000, 280000, 150000, 120000, 80000, 20000];
    var q := 100000.0;
    var pisos: seq<nat> := [3, 2, 1, 1, 0, 0];
    assert Pisos(votos, q) == pisos by {
      assert Piso(350000, q) == 3 && Piso(280000, q) == 2 && Piso(150000, q) == 1;
      assert Piso(120000, q) == 1 && Piso(80000, q) == 0 && Piso(20000, q) == 0;
    }
    var res := [50000.0, 80000.0, 50000.0, 20000.0, 80000.0, 20000.0];
    assert Residuos(votos, q) == res;
    assert Restantes(votos, q, 10) == 3 by {
      SumaSeis(pisos);
    }
    // ranks in the stable sort: Conservador, Polo, Liberal, Verde, Centro, Otros
    RangoSeis(res, 0);
    RangoSeis(res, 1);
    RangoSeis(res, 2);
    RangoSeis(res, 3);
    RangoSeis(res, 4);
    RangoSeis(res, 5);
    assert Extras(res, 3) == [1, 1, 0, 0, 1, 0];
  }

  /**
   * The same election under Droop: the quotient is 1000000 / 11 + 1, the
   * floor seats 3, 3, 1, 1, 0, 0, and the two missing seats go to Polo
   * (remainder 80000) and Liberal, for the same final seats as Hare.
   */
  lemma EjemploDroop()
    ensures CuocienteDroop(1000000, 10) == Ok(1000000.0 / 11.0 + 1.0)
    ensures Pisos([350000, 280000, 150000, 120000, 80000, 20000], 1000000.0 / 11.0 + 1.0) == [3, 3, 1, 1, 0, 0]
    ensures Curules([350000, 280000, 150000, 120000, 80000, 20000], 1000000.0 / 11.0 + 1.0, 10) == [4, 3, 1, 1, 1, 0]
  {
    var votos: seq<nat> := [350000, 280000, 150000, 120000, 80000, 20000];
    var q := 1000000.0 / 11.0 + 1.0;
    assert q == 1000011.0 / 11.0;
    var pisos: seq<nat> := [3, 3, 1, 1, 0, 0];
    assert Pisos(votos, q) == pisos by {
      assert Piso(350000, q) == 3 && Piso(280000, q) == 3 && Piso(150000, q) == 1;
      assert Piso(120000, q) == 1 && Piso(80000, q) == 0 && Piso(20000, q) == 0;
    }
    var res := [350000.0 - 3.0 * q, 280000.0 - 3.0 * q, 150000.0 - q, 120000.0 - q, 80000.0, 20000.0];
    assert Residuos(votos, q) == res;
    assert Restantes(votos, q, 10) == 2 by {
      SumaSeis(pisos);
    }
    // ranks in the stable sort: Polo, Liberal, Verde, Centro, Otros, Conservador
    RangoSeis(res, 0);
    RangoSeis(res, 1);
    RangoSeis(res, 2);
    RangoSeis(res, 3);
    RangoSeis(res, 4);
    RangoSeis(res, 5);
    assert Extras(res, 2) == [1, 0, 0, 0, 1, 0];
  }

  /**
   * The vote total is taken apart from the parties' votes and not checked:
   * one party with 100 votes under a stored total of 10 votes and one seat
   * gets floor(100 / 10) = 10 seats.
   */
  lemma EjemploVotosExcedidos()
    ensures CuocienteHare(10, 1) == Ok(10.0)
    ensures Curules([100], 10.0, 1) == [10]
  {
    assert Piso(100, 10.0) == 10;
    assert Pisos([100], 10.0) == [10];
    assert Suma([10]) == 10 by { assert [10][..0] == []; }
    CurulesSinRestantes([100], 10.0, 1);
  }
}
