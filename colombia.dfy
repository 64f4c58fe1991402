/**
 * The Colombian overlay on the apportionment engine: a fixed table of seats,
 * threshold and method per election type; an optional seat override; a
 * minimum-vote threshold that selects the qualified parties; an absolute
 * majority rule for mayoralties; and the largest-remainder fill rerun over
 * the qualified parties alone, with the quotient built from their votes.
 */
module Colombia {
  import opened Comun
  import opened MayorResiduo
  import opened Cuociente

  datatype TipoEleccion = Senado | Camara | Asamblea | Concejo | Alcaldia

  /** A row of the table: the seats (None where they vary by territory), the threshold and the method. */
  datatype Configuracion = Configuracion(curules: Option<nat>, umbral: real, metodo: string)

  /**
   * The configuration table.  Mayoralties alone use the majority rule, with
   * one seat and a 50% threshold; every other election is Hare with a 3%
   * threshold, and only departmental assemblies and municipal councils have
   * no fixed seat count.
   */
  function Configuraciones(tipo: TipoEleccion): (c: Configuracion)
    ensures c.metodo == "mayoria" <==> tipo == Alcaldia
    ensures tipo != Alcaldia ==> c.metodo == "hare" && c.umbral == 0.03
    ensures tipo == Senado ==> c.curules == Some(100)
    ensures tipo == Camara ==> c.curules == Some(166)
    ensures tipo == Alcaldia ==> c.curules == Some(1) && c.umbral == 0.50
    ensures c.curules.None? <==> tipo == Asamblea || tipo == Concejo
    ensures c.curules.Some? ==> c.curules.value > 0
  {
    match tipo
    case Senado => Configuracion(Some(100), 0.03, "hare")
    case Camara => Configuracion(Some(166), 0.03, "hare")
    case Asamblea => Configuracion(None, 0.03, "hare")
    case Concejo => Configuracion(None, 0.03, "hare")
    case Alcaldia => Configuracion(Some(1), 0.50, "mayoria")
  }

  /**
   * The seat total of a run: a non-zero override wins; otherwise the table's
   * value.  It is absent only for an assembly or a council without override,
   * and never zero.
   */
  function CurulesElegidas(tipo: TipoEleccion, personalizadas: Option<nat>): (r: Option<nat>)
    ensures personalizadas.Some? && personalizadas.value > 0 ==> r == personalizadas
    ensures !(personalizadas.Some? && personalizadas.value > 0) ==> r == Configuraciones(tipo).curules
    ensures r.None? <==> (tipo == Asamblea || tipo == Concejo) && (personalizadas.None? || personalizadas.value == 0)
    ensures r.Some? ==> r.value > 0
  {
    if personalizadas.Some? && personalizadas.value > 0 then personalizadas
    else Configuraciones(tipo).curules
  }

  /**
   * A party reaches the threshold when its votes are at least the total
   * times the threshold: for 3% that is 100 * votes >= 3 * total, for 50%
   * it is 2 * votes >= total.
   */
  function Califica(votos: nat, totalVotos: nat, umbral: real): (b: bool)
    ensures umbral == 0.03 ==> (b <==> 100 * votos >= 3 * totalVotos)
    ensures umbral == 0.50 ==> (b <==> 2 * votos >= totalVotos)
    ensures umbral <= 0.0 ==> b
  {
    votos as real >= totalVotos as real * umbral
  }

  /** The positions of the parties that reach the threshold, in entry order, and all of them. */
  function IndicesCalificados(ps: seq<Partido>, totalVotos: nat, umbral: real): (idx: seq<nat>)
    ensures forall t :: 0 <= t < |idx| ==> idx[t] < |ps| && Califica(ps[idx[t]].votos, totalVotos, umbral)
    ensures forall s, t :: 0 <= s < t < |idx| ==> idx[s] < idx[t]
    ensures forall i :: 0 <= i < |ps| && Califica(ps[i].votos, totalVotos, umbral) ==> i in idx
    ensures (forall i :: 0 <= i < |ps| ==> Califica(ps[i].votos, totalVotos, umbral)) ==>
              |idx| == |ps| && forall t :: 0 <= t < |idx| ==> idx[t] == t
    decreases |ps|
  {
    if ps == [] then []
    else
      var previos := IndicesCalificados(ps[..|ps| - 1], totalVotos, umbral);
      if Califica(ps[|ps| - 1].votos, totalVotos, umbral) then previos + [|ps| - 1] else previos
  }

  function Seleccion(ps: seq<Partido>, idx: seq<nat>): seq<Partido>
    requires forall t :: 0 <= t < |idx| ==> idx[t] < |ps|
  {
    seq(|idx|, t requires 0 <= t < |idx| => ps[idx[t]])
  }

  /** The parties that reach the threshold, in entry order: each kept party is one of them and qualifies. */
  function AplicarUmbral(ps: seq<Partido>, totalVotos: nat, umbral: real): (r: seq<Partido>)
    ensures |r| <= |ps|
    ensures forall t :: 0 <= t < |r| ==> r[t] in ps && Califica(r[t].votos, totalVotos, umbral)
    ensures (forall i :: 0 <= i < |ps| ==> Califica(ps[i].votos, totalVotos, umbral)) ==> r == ps
    ensures ps == [] ==> r == []
  {
    var idx := IndicesCalificados(ps, totalVotos, umbral);
    IndicesCota(idx, |ps|);
    Seleccion(ps, idx)
  }

  /** A party is kept by the threshold exactly when it is one of the parties and qualifies. */
  lemma AplicarUmbralExacto(ps: seq<Partido>, totalVotos: nat, umbral: real, p: Partido)
    ensures p in AplicarUmbral(ps, totalVotos, umbral) <==> p in ps && Califica(p.votos, totalVotos, umbral)
    ensures |AplicarUmbral(ps, totalVotos, umbral)| <= |ps|
  {
    var idx := IndicesCalificados(ps, totalVotos, umbral);
    var r := AplicarUmbral(ps, totalVotos, umbral);
    if p in r {
      var t :| 0 <= t < |r| && r[t] == p;
      assert p == ps[idx[t]];
    }
    if p in ps && Califica(p.votos, totalVotos, umbral) {
      var i :| 0 <= i < |ps| && ps[i] == p;
      assert i in idx;
      var t :| 0 <= t < |idx| && idx[t] == i;
      assert r[t] == p;
    }
    IndicesCota(idx, |ps|);
  }

  /**
   * The filter keeps entry order and every copy: one more party at the end
   * adds itself at the end of the result exactly when it qualifies.
   */
  lemma AplicarUmbralAgregar(ps: seq<Partido>, p: Partido, totalVotos: nat, umbral: real)
    ensures AplicarUmbral(ps + [p], totalVotos, umbral)
         == AplicarUmbral(ps, totalVotos, umbral) + (if Califica(p.votos, totalVotos, umbral) then [p] else [])
  {
    var qs := ps + [p];
    assert qs[..|qs| - 1] == ps;
    var idx := IndicesCalificados(ps, totalVotos, umbral);
    var extra: seq<nat> := if Califica(p.votos, totalVotos, umbral) then [|ps|] else [];
    assert IndicesCalificados(qs, totalVotos, umbral) == idx + extra;
    assert Seleccion(qs, idx + extra) == Seleccion(ps, idx) + (if Califica(p.votos, totalVotos, umbral) then [p] else []);
  }

  /** A strictly increasing sequence of positions below n has at most n entries. */
  lemma {:induction false} IndicesCota(idx: seq<nat>, n: nat)
    requires forall t :: 0 <= t < |idx| ==> idx[t] < n
    requires forall s, t :: 0 <= s < t < |idx| ==> idx[s] < idx[t]
    ensures |idx| <= n
  {
    if idx != [] {
      var m := idx[|idx| - 1];
      IndicesCota(idx[..|idx| - 1], m);
    }
  }

  /** The first party with the largest vote count: the head of a stable sort by votes, descending. */
  function PrimerMaximo(votos: seq<nat>): (k: nat)
    requires |votos| > 0
    ensures k < |votos|
    ensures forall i :: 0 <= i < |votos| ==> votos[i] <= votos[k]
    ensures forall i :: 0 <= i < k ==> votos[i] < votos[k]
    decreases |votos|
  {
    if |votos| == 1 then 0
    else
      var k := PrimerMaximo(votos[..|votos| - 1]);
      if votos[|votos| - 1] > votos[k] then |votos| - 1 else k
  }

  /**
   * The majority rule: no result without parties; one seat for the first
   * party with the most votes when those votes exceed half the total; and a
   * runoff otherwise, which exactly half the votes does not avoid.
   */
  function MayoriaAbsoluta(ps: seq<Partido>, totalVotos: nat): (r: Tabla)
    ensures r == [] <==> ps == []
    ensures ps != [] && ps[PrimerMaximo(Votos(ps))].votos as real > totalVotos as real / 2.0
            ==> r == [(ps[PrimerMaximo(Votos(ps))].nombre, 1)]
    ensures r == [("SEGUNDA_VUELTA", 0)]
            <==> ps != [] && forall i :: 0 <= i < |ps| ==> ps[i].votos as real <= totalVotos as real / 2.0
  {
    if ps == [] then []
    else
      var votos := Votos(ps);
      var ganador := ps[PrimerMaximo(votos)];
      assert forall i :: 0 <= i < |ps| ==> ps[i].votos == votos[i];
      if ganador.votos as real > totalVotos as real / 2.0 then [(ganador.nombre, 1)]
      else [("SEGUNDA_VUELTA", 0)]
  }

  /**
   * The quotient over the qualified votes: Hare divides by the seats and
   * fails on zero seats; any other method takes the Droop formula, which
   * has no zero guard and is never below one.
   */
  function CuocienteCalificado(metodo: string, votos: nat, curules: nat): (r: Result<real, Error>)
    ensures metodo == "hare" ==> (r.Err? <==> curules == 0)
    ensures r.Err? ==> r.error == DivisionPorCero
    ensures metodo != "hare" ==> r.Ok? && r.value * (curules + 1) as real == votos as real + (curules + 1) as real
    ensures curules > 0 ==>
              r == (if metodo == "hare" then CuocienteHare(votos, curules) else CuocienteDroop(votos, curules))
    ensures r.Ok? ==> r.value >= 0.0 && (r.value == 0.0 <==> metodo == "hare" && votos == 0)
  {
    if metodo == "hare" then
      if curules == 0 then Err(DivisionPorCero) else Ok(votos as real / curules as real)
    else
      var r := votos as real / (curules + 1) as real + 1.0;
      assert r * (curules + 1) as real == votos as real + (curules + 1) as real;
      Ok(r)
  }

  function VotosEn(ps: seq<Partido>, idx: seq<nat>): seq<nat>
    requires forall t :: 0 <= t < |idx| ==> idx[t] < |ps|
  {
    seq(|idx|, t requires 0 <= t < |idx| => ps[idx[t]].votos)
  }

  function ResiduosEn(ps: seq<Partido>, idx: seq<nat>): seq<real>
    requires forall t :: 0 <= t < |idx| ==> idx[t] < |ps|
  {
    seq(|idx|, t requires 0 <= t < |idx| => ps[idx[t]].residuo)
  }

  function CurulesEn(ps: seq<Partido>, idx: seq<nat>): seq<nat>
    requires forall t :: 0 <= t < |idx| ==> idx[t] < |ps|
  {
    seq(|idx|, t requires 0 <= t < |idx| => ps[idx[t]].curulesAsignadas)
  }

  /** The name -> seats table of the parties at the given positions. */
  function TablaEn(ps: seq<Partido>, idx: seq<nat>): Tabla
    requires forall t :: 0 <= t < |idx| ==> idx[t] < |ps|
  {
    seq(|idx|, t requires 0 <= t < |idx| => (ps[idx[t]].nombre, ps[idx[t]].curulesAsignadas))
  }

  /**
   * The parties after an overlay run over the qualified positions idx: each
   * qualified party holds its largest-remainder seats and remainder among the
   * qualified parties, and every other party is as it was.
   */
  predicate Repartido(antes: seq<Partido>, despues: seq<Partido>, idx: seq<nat>, q: real, curules: nat)
    requires q > 0.0
    requires forall t :: 0 <= t < |idx| ==> idx[t] < |antes|
  {
    var votos := VotosEn(antes, idx);
    |despues| == |antes| &&
    (forall t :: 0 <= t < |idx| ==>
       despues[idx[t]] == antes[idx[t]].(curulesAsignadas := Curules(votos, q, curules)[t],
                                         residuo := Residuos(votos, q)[t])) &&
    (forall i :: 0 <= i < |antes| && i !in idx ==> despues[i] == antes[i])
  }

  /** Over the qualified parties, the overlay computes what the engine computes on them alone. */
  lemma RepartidoComoMotor(antes: seq<Partido>, despues: seq<Partido>, idx: seq<nat>, q: real, curules: nat)
    requires q > 0.0
    requires forall t :: 0 <= t < |idx| ==> idx[t] < |antes|
    requires Repartido(antes, despues, idx, q, curules)
    ensures Seleccion(despues, idx) == Repartidos(Seleccion(antes, idx), q, curules)
  {
    assert Votos(Seleccion(antes, idx)) == VotosEn(antes, idx);
  }

  /**
   * Within the qualified set: each party holds its floor seats or one more
   * and a remainder in [0, q), and the seats handed out are the floor seats
   * plus min(max(missing, 0), number of qualified parties).
   */
  lemma RepartidoCotas(antes: seq<Partido>, despues: seq<Partido>, idx: seq<nat>, q: real, curules: nat)
    requires q > 0.0
    requires forall t :: 0 <= t < |idx| ==> idx[t] < |antes|
    requires Repartido(antes, despues, idx, q, curules)
    ensures forall t :: 0 <= t < |idx| ==>
              var c := despues[idx[t]].curulesAsignadas;
              var piso := Piso(antes[idx[t]].votos, q);
              (c == piso || c == piso + 1) && 0.0 <= despues[idx[t]].residuo < q
    ensures Suma(CurulesEn(despues, idx))
         == Suma(Pisos(VotosEn(antes, idx), q)) + Min(Max(Restantes(VotosEn(antes, idx), q, curules), 0), |idx|)
  {
    var votos := VotosEn(antes, idx);
    assert CurulesEn(despues, idx) == Curules(votos, q, curules);
    CurulesTotal(votos, q, curules);
  }

  /**
   * Within the qualified set, a party that gets an extra seat ranks before
   * one that does not: a larger remainder, or an equal one and an earlier entry.
   */
  lemma RepartidoOrden(antes: seq<Partido>, despues: seq<Partido>, idx: seq<nat>, q: real, curules: nat, a: nat, b: nat)
    requires q > 0.0
    requires forall t :: 0 <= t < |idx| ==> idx[t] < |antes|
    requires Repartido(antes, despues, idx, q, curules)
    requires forall s, t :: 0 <= s < t < |idx| ==> idx[s] < idx[t]
    requires a < |idx| && b < |idx|
    requires despues[idx[a]].curulesAsignadas == Piso(antes[idx[a]].votos, q) + 1
    requires despues[idx[b]].curulesAsignadas == Piso(antes[idx[b]].votos, q)
    ensures despues[idx[a]].residuo > despues[idx[b]].residuo
         || (despues[idx[a]].residuo == despues[idx[b]].residuo && idx[a] < idx[b])
  {
    var votos := VotosEn(antes, idx);
    var c := Curules(votos, q, curules);
    var res := Residuos(votos, q);
    assert despues[idx[a]].curulesAsignadas == c[a] && despues[idx[a]].residuo == res[a];
    assert despues[idx[b]].curulesAsignadas == c[b] && despues[idx[b]].residuo == res[b];
    assert votos[a] == antes[idx[a]].votos && votos[b] == antes[idx[b]].votos;
    CurulesOrden(votos, q, curules, a, b);
    assert res[a] > res[b] || (res[a] == res[b] && a < b);
    assert a < b ==> idx[a] < idx[b];
  }

  /** With the Hare quotient over positive qualified votes, the qualified parties hold exactly the seat total. */
  lemma RepartidoHare(antes: seq<Partido>, despues: seq<Partido>, idx: seq<nat>, curules: nat)
    requires forall t :: 0 <= t < |idx| ==> idx[t] < |antes|
    requires curules > 0 && Suma(VotosEn(antes, idx)) > 0
    requires Repartido(antes, despues, idx, Suma(VotosEn(antes, idx)) as real / curules as real, curules)
    ensures Suma(CurulesEn(despues, idx)) == curules
  {
    var votos := VotosEn(antes, idx);
    var q := Suma(votos) as real / curules as real;
    assert CurulesEn(despues, idx) == Curules(votos, q, curules);
    HareReparteTodas(votos, curules);
  }

  class CuocienteElectoralColombia {
    const tipoEleccion: TipoEleccion
    const totalVotosValidos: nat
    const totalCurules: Option<nat>
    const umbral: real
    const metodoEstandar: string
    var partidos: seq<Partido>

    /** Reads the table for the election type; a non-zero override replaces its seat count. */
    constructor (tipo: TipoEleccion, totalVotos: nat, curulesPersonalizadas: Option<nat>)
      ensures tipoEleccion == tipo && totalVotosValidos == totalVotos
      ensures totalCurules == CurulesElegidas(tipo, curulesPersonalizadas)
      ensures umbral == Configuraciones(tipo).umbral && metodoEstandar == Configuraciones(tipo).metodo
      ensures partidos == []
    {
      var config := Configuraciones(tipo);
      tipoEleccion := tipo;
      totalVotosValidos := totalVotos;
      totalCurules := CurulesElegidas(tipo, curulesPersonalizadas);
      umbral := config.umbral;
      metodoEstandar := config.metodo;
      partidos := [];
    }

    /** Appends a new party with no seats and no remainder (inherited from the engine). */
    method AgregarPartido(nombre: string, votos: nat)
      modifies this
      ensures partidos == old(partidos) + [Partido(nombre, votos, 0, 0.0)]
    {
      partidos := partidos + [Partido(nombre, votos, 0, 0.0)];
    }

    /**
     * A mayoralty is decided by the majority rule.  Otherwise the threshold
     * selects the qualified parties; with none the result is empty; a seat
     * total that is None, or a zero quotient, fails before any party is
     * written; else the qualified parties get their largest-remainder seats
     * over the qualified votes and the others are left as they were.
     */
    method AsignarCurulesColombia() returns (r: Result<Tabla, Error>)
      modifies this
      ensures tipoEleccion == Alcaldia ==>
                r == Ok(MayoriaAbsoluta(old(partidos), totalVotosValidos)) && partidos == old(partidos)
      ensures tipoEleccion != Alcaldia ==>
                var idx := IndicesCalificados(old(partidos), totalVotosValidos, umbral);
                if idx == [] then r == Ok([]) && partidos == old(partidos)
                else if totalCurules.None? then r == Err(CurulesIndefinidas) && partidos == old(partidos)
                else
                  var cq := CuocienteCalificado(metodoEstandar, Suma(VotosEn(old(partidos), idx)), totalCurules.value);
                  if cq.Err? || cq.value == 0.0 then r == Err(DivisionPorCero) && partidos == old(partidos)
                  else Repartido(old(partidos), partidos, idx, cq.value, totalCurules.value) &&
                       r == Ok(TablaEn(partidos, idx))
    {
      if tipoEleccion == Alcaldia {
        return Ok(MayoriaAbsoluta(partidos, totalVotosValidos));
      }
      var idx := IndicesCalificados(partidos, totalVotosValidos, umbral);
      if idx == [] {
        return Ok([]);
      }
      var votos := VotosEn(partidos, idx);
      if totalCurules.None? {
        // votos / None raises a TypeError
        return Err(CurulesIndefinidas);
      }
      var curules := totalCurules.value;
      var cq := CuocienteCalificado(metodoEstandar, Suma(votos), curules);
      if cq.Err? || cq.value == 0.0 {
        // a division by a zero seat total or by a zero quotient
        return Err(DivisionPorCero);
      }
      var q := cq.value;
      ghost var antes := partidos;
      var asignadas := AsignarPisosCalificados(idx, q);
      ghost var uno := partidos;
      var restantes := curules - asignadas;
      if restantes > 0 {
        AsignarResiduosCalificados(idx, restantes);
      }
      PasadasCalificadas(antes, uno, partidos, idx, q, curules, restantes);
      r := Ok(TablaEn(partidos, idx));
    }

    /** First pass over the qualified parties: floor seats and remainders; returns the floor seats' sum. */
    method AsignarPisosCalificados(idx: seq<nat>, q: real) returns (asignadas: int)
      requires q > 0.0
      requires forall t :: 0 <= t < |idx| ==> idx[t] < |partidos|
      requires forall s, t :: 0 <= s < t < |idx| ==> idx[s] < idx[t]
      modifies this
      ensures PisosEn(old(partidos), partidos, idx, q)
      ensures asignadas == Suma(Pisos(VotosEn(old(partidos), idx), q))
    {
      ghost var votos := VotosEn(partidos, idx);
      asignadas := 0;
      var t := 0;
      while t < |idx|
        invariant 0 <= t <= |idx| && |partidos| == |old(partidos)|
        invariant forall s :: 0 <= s < t ==>
                    partidos[idx[s]] == old(partidos)[idx[s]].(curulesAsignadas := Piso(old(partidos)[idx[s]].votos, q),
                                                                residuo := Residuo(old(partidos)[idx[s]].votos, q))
        invariant forall i :: 0 <= i < |partidos| && i !in idx[..t] ==> partidos[i] == old(partidos)[i]
        invariant asignadas == Suma(Pisos(votos, q)[..t])
      {
        var i := idx[t];
        var p := partidos[i];
        var c := Piso(p.votos, q);
        partidos := partidos[i := p.(curulesAsignadas := c, residuo := Residuo(p.votos, q))];
        assert idx[..t + 1] == idx[..t] + [i];
        assert Pisos(votos, q)[..t + 1][..t] == Pisos(votos, q)[..t];
        asignadas := asignadas + c;
        t := t + 1;
      }
      assert Pisos(votos, q)[..t] == Pisos(votos, q);
      assert idx[..t] == idx;
    }

    /**
     * Second pass over the qualified parties: one more seat for each of the
     * first `restantes` of the stable sort by remainder, largest first.
     */
    method AsignarResiduosCalificados(idx: seq<nat>, restantes: int)
      requires forall t :: 0 <= t < |idx| ==> idx[t] < |partidos|
      requires forall s, t :: 0 <= s < t < |idx| ==> idx[s] < idx[t]
      modifies this
      ensures ExtrasEn(old(partidos), partidos, idx, restantes)
    {
      var ps := partidos;
      var residuos := ResiduosEn(ps, idx);
      var t := 0;
      while t < |idx|
        invariant 0 <= t <= |idx| && |partidos| == |ps|
        invariant forall s :: 0 <= s < t ==>
                    partidos[idx[s]] == Extra(ps[idx[s]], Rango(residuos, s) < restantes)
        invariant forall i :: 0 <= i < |partidos| && i !in idx[..t] ==> partidos[i] == ps[i]
      {
        var i := idx[t];
        assert idx[..t + 1] == idx[..t] + [i];
        if Rango(residuos, t) < restantes {
          partidos := partidos[i := Extra(partidos[i], true)];
        }
        t := t + 1;
      }
      assert idx[..t] == idx;
    }
  }

  /** The state after the first pass over the qualified positions. */
  predicate PisosEn(antes: seq<Partido>, despues: seq<Partido>, idx: seq<nat>, q: real)
    requires q > 0.0
    requires forall t :: 0 <= t < |idx| ==> idx[t] < |antes|
  {
    |despues| == |antes| &&
    (forall t :: 0 <= t < |idx| ==>
       despues[idx[t]] == antes[idx[t]].(curulesAsignadas := Piso(antes[idx[t]].votos, q),
                                         residuo := Residuo(antes[idx[t]].votos, q))) &&
    (forall i :: 0 <= i < |antes| && i !in idx ==> despues[i] == antes[i])
  }

  function Extra(p: Partido, agraciado: bool): Partido
  {
    if agraciado then p.(curulesAsignadas := p.curulesAsignadas + 1) else p
  }

  /** The state after the second pass: one more seat for the qualified parties ranked below k. */
  predicate ExtrasEn(antes: seq<Partido>, despues: seq<Partido>, idx: seq<nat>, k: int)
    requires forall t :: 0 <= t < |idx| ==> idx[t] < |antes|
  {
    |despues| == |antes| &&
    (forall t :: 0 <= t < |idx| ==> despues[idx[t]] == Extra(antes[idx[t]], Rango(ResiduosEn(antes, idx), t) < k)) &&
    (forall i :: 0 <= i < |antes| && i !in idx ==> despues[i] == antes[i])
  }

  /** The two passes over the qualified parties, the second only when seats are missing, compute Repartido. */
  lemma PasadasCalificadas(antes: seq<Partido>, uno: seq<Partido>, dos: seq<Partido>, idx: seq<nat>,
                           q: real, curules: nat, restantes: int)
    requires q > 0.0
    requires forall t :: 0 <= t < |idx| ==> idx[t] < |antes|
    requires PisosEn(antes, uno, idx, q)
    requires restantes == curules - Suma(Pisos(VotosEn(antes, idx), q))
    requires restantes > 0 ==> ExtrasEn(uno, dos, idx, restantes)
    requires restantes <= 0 ==> dos == uno
    ensures Repartido(antes, dos, idx, q, curules)
  {
    var votos := VotosEn(antes, idx);
    assert ResiduosEn(uno, idx) == Residuos(votos, q);
    if restantes <= 0 {
      CurulesSinRestantes(votos, q, curules);
    }
  }
}
