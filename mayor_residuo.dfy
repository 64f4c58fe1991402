/**
 * The largest-remainder ("mayor residuo") method as pure functions.
 *
 * Given the parties' votes in entry order, a quotient q > 0 and a seat total,
 * every party first earns floor(votos / q) seats and keeps votos mod q as its
 * remainder; the seats still missing go, one each, to the parties that come
 * first when the parties are stably sorted by remainder, largest first.
 *
 * The stable sort is stated declaratively: the position of party i in that
 * sort is its rank, the number of parties ranked before it (a strictly larger
 * remainder, or an equal remainder and an earlier entry).  The lemmas below
 * prove that the ranks are exactly the positions 0 .. n-1, from which the
 * seat count, the ordering and the bounds of the method follow.
 */
module MayorResiduo {

  function Min(a: int, b: int): int { if a <= b then a else b }

  function Max(a: int, b: int): int { if a >= b then a else b }

  /** Sum of a sequence of integers, accumulated from the left. */
  function Suma(s: seq<int>): (r: int)
    ensures (forall i :: 0 <= i < |s| ==> s[i] >= 0) ==> r >= 0
  {
    if s == [] then 0 else Suma(s[..|s| - 1]) + s[|s| - 1]
  }

  lemma MulMenorIgual(a: real, b: real, q: real)
    requires a <= b && q > 0.0
    ensures a * q <= b * q
  {
    assert b * q - a * q == (b - a) * q;
  }

  lemma MulMenor(a: real, b: real, q: real)
    requires a < b && q > 0.0
    ensures a * q < b * q
  {
    assert b * q - a * q == (b - a) * q;
  }

  lemma MulCancela(a: real, b: real, q: real)
    requires a * q <= b * q && q > 0.0
    ensures a <= b
  {
    if a > b {
      MulMenor(b, a, q);
    }
  }

  /** Seats a party earns outright under quotient q: floor(votos / q). */
  function Piso(votos: nat, q: real): (c: nat)
    requires q > 0.0
    ensures c as real <= votos as real / q < (c + 1) as real
  {
    assert votos as real / q >= 0.0;
    (votos as real / q).Floor
  }

  /** What is left of the votes after the floor seats: votos mod q. */
  function Residuo(votos: nat, q: real): (r: real)
    requires q > 0.0
    ensures 0.0 <= r < q
    ensures Piso(votos, q) as real * q + r == votos as real
  {
    var x := votos as real / q;
    var c := Piso(votos, q);
    assert x * q == votos as real;
    MulMenorIgual(c as real, x, q);
    MulMenor(x, (c + 1) as real, q);
    assert (c + 1) as real * q == c as real * q + q;
    assert votos as real - c as real * q < q;
    votos as real - c as real * q
  }

  function Pisos(votos: seq<nat>, q: real): seq<nat>
    requires q > 0.0
  {
    seq(|votos|, i requires 0 <= i < |votos| => Piso(votos[i], q))
  }

  function Residuos(votos: seq<nat>, q: real): seq<real>
    requires q > 0.0
  {
    seq(|votos|, i requires 0 <= i < |votos| => Residuo(votos[i], q))
  }

  /** Seats still to hand out after the floor seats (negative when the floors overshoot). */
  function Restantes(votos: seq<nat>, q: real, total: int): int
    requires q > 0.0
  {
    total - Suma(Pisos(votos, q))
  }

  /**
   * Party a comes before party b when the parties are sorted stably by
   * remainder, largest first: a larger remainder, or the same remainder and
   * an earlier entry.
   */
  predicate Antes(res: seq<real>, a: int, b: int)
  {
    0 <= a < |res| && 0 <= b < |res| && (res[a] > res[b] || (res[a] == res[b] && a < b))
  }

  /** How many of the first m parties come before party i. */
  function CuentaAntes(res: seq<real>, i: int, m: nat): nat
    requires m <= |res|
  {
    if m == 0 then 0 else CuentaAntes(res, i, m - 1) + (if Antes(res, m - 1, i) then 1 else 0)
  }

  /** The position of party i in the stable sort by remainder, largest first. */
  function Rango(res: seq<real>, i: int): nat
  {
    CuentaAntes(res, i, |res|)
  }

  /** 1 for the parties that receive a remainder seat, 0 for the others. */
  function Extras(res: seq<real>, restantes: int): seq<nat>
  {
    seq(|res|, i requires 0 <= i < |res| => if Rango(res, i) < restantes then 1 else 0)
  }

  /**
   * Final seats of every party: its floor seats, plus one when its rank is
   * below the number of seats still missing.
   */
  function Curules(votos: seq<nat>, q: real, total: int): (c: seq<nat>)
    requires q > 0.0
    ensures |c| == |votos|
    ensures forall i :: 0 <= i < |votos| ==> c[i] == Piso(votos[i], q) || c[i] == Piso(votos[i], q) + 1
  {
    var pisos := Pisos(votos, q);
    var extras := Extras(Residuos(votos, q), Restantes(votos, q, total));
    seq(|votos|, i requires 0 <= i < |votos| => pisos[i] + extras[i])
  }

  // ---------------------------------------------------------------------
  // Ranks
  // ---------------------------------------------------------------------

  lemma {:induction false} CuentaAntesCota(res: seq<real>, i: int, m: nat)
    requires m <= |res|
    ensures CuentaAntes(res, i, m) + (if 0 <= i < m then 1 else 0) <= m
  {
    if m > 0 {
      CuentaAntesCota(res, i, m - 1);
    }
  }

  /** A rank is a position: it is below the number of parties. */
  lemma RangoCota(res: seq<real>, i: int)
    requires 0 <= i < |res|
    ensures Rango(res, i) < |res|
  {
    CuentaAntesCota(res, i, |res|);
  }

  lemma {:induction false} CuentaAntesMonotona(res: seq<real>, a: int, b: int, m: nat)
    requires Antes(res, a, b) && m <= |res|
    ensures CuentaAntes(res, a, m) + (if a < m then 1 else 0) <= CuentaAntes(res, b, m)
  {
    if m > 0 {
      CuentaAntesMonotona(res, a, b, m - 1);
    }
  }

  /** A party that comes before another has a smaller rank. */
  lemma RangoEstricto(res: seq<real>, a: int, b: int)
    requires Antes(res, a, b)
    ensures Rango(res, a) < Rango(res, b)
  {
    CuentaAntesMonotona(res, a, b, |res|);
  }

  /** No two parties share a position. */
  lemma RangoInyectivo(res: seq<real>, a: int, b: int)
    requires 0 <= a < |res| && 0 <= b < |res| && a != b
    ensures Rango(res, a) != Rango(res, b)
  {
    if Antes(res, a, b) {
      RangoEstricto(res, a, b);
    } else {
      RangoEstricto(res, b, a);
    }
  }

  /** The positions 0 .. m-1. */
  function Intervalo(m: int): (s: set<int>)
    ensures forall i :: i in s <==> 0 <= i < m
  {
    if m <= 0 then {} else Intervalo(m - 1) + {m - 1}
  }

  lemma {:induction false} IntervaloCard(m: nat)
    ensures |Intervalo(m)| == m
  {
    if m > 0 {
      IntervaloCard(m - 1);
    }
  }

  /** The ranks taken by the parties in s. */
  function Imagen(res: seq<real>, s: set<int>): set<int>
  {
    set i | i in s :: Rango(res, i)
  }

  lemma {:induction false} ImagenCard(res: seq<real>, s: set<int>)
    requires forall i :: i in s ==> 0 <= i < |res|
    ensures |Imagen(res, s)| == |s|
    decreases |s|
  {
    if s == {} {
      assert Imagen(res, s) == {};
    } else {
      ElementoDe(s);
      var x: int :| x in s;
      var s' := s - {x};
      ImagenCard(res, s');
      forall i | i in s'
        ensures Rango(res, i) != Rango(res, x)
      {
        RangoInyectivo(res, i, x);
      }
      assert Rango(res, x) !in Imagen(res, s');
      assert Imagen(res, s) == Imagen(res, s') + {Rango(res, x)};
    }
  }

  lemma ElementoDe(s: set<int>)
    requires s != {}
    ensures exists x :: x in s
  {
    if forall x :: x !in s {
      assert false;
    }
  }

  lemma SubconjuntoIgual(a: set<int>, b: set<int>)
    requires a <= b && |a| == |b|
    ensures a == b
  {
    var d := b - a;
    assert b == a + d;
    assert a * d == {};
    assert |d| == 0;
  }

  /** The ranks are a permutation of the positions 0 .. n-1. */
  lemma RangosPermutacion(res: seq<real>)
    ensures Imagen(res, Intervalo(|res|)) == Intervalo(|res|)
  {
    var n := |res|;
    forall i | i in Intervalo(n)
      ensures Rango(res, i) in Intervalo(n)
    {
      RangoCota(res, i);
    }
    ImagenCard(res, Intervalo(n));
    IntervaloCard(n);
    SubconjuntoIgual(Imagen(res, Intervalo(n)), Intervalo(n));
  }

  /** Every position of the sort is taken by some party. */
  lemma RangoSobreyectivo(res: seq<real>, t: int)
    requires 0 <= t < |res|
    ensures exists i :: 0 <= i < |res| && Rango(res, i) == t
  {
    RangosPermutacion(res);
    assert t in Imagen(res, Intervalo(|res|));
  }

  /** The parties whose rank is below k. */
  function Agraciados(res: seq<real>, k: int): set<int>
  {
    set i | 0 <= i < |res| && Rango(res, i) < k
  }

  /** Exactly min(max(k, 0), n) parties have a rank below k. */
  lemma AgraciadosCard(res: seq<real>, k: int)
    ensures |Agraciados(res, k)| == Min(Max(k, 0), |res|)
  {
    var m := Min(Max(k, 0), |res|);
    var g := Agraciados(res, k);
    forall t | t in Intervalo(m)
      ensures t in Imagen(res, g)
    {
      RangoSobreyectivo(res, t);
      var i :| 0 <= i < |res| && Rango(res, i) == t;
      assert i in g;
    }
    forall t | t in Imagen(res, g)
      ensures t in Intervalo(m)
    {
      var i :| i in g && Rango(res, i) == t;
      RangoCota(res, i);
    }
    assert Imagen(res, g) == Intervalo(m);
    ImagenCard(res, g);
    IntervaloCard(m);
  }

  // ---------------------------------------------------------------------
  // Remainder seats
  // ---------------------------------------------------------------------

  lemma {:induction false} SumaExtrasPrefijo(res: seq<real>, k: int, m: nat)
    requires m <= |res|
    ensures Suma(Extras(res, k)[..m]) == |set i | 0 <= i < m && Rango(res, i) < k|
  {
    var e := Extras(res, k);
    if m == 0 {
      assert (set i | 0 <= i < m && Rango(res, i) < k) == {};
    } else {
      SumaExtrasPrefijo(res, k, m - 1);
      assert e[..m][..m - 1] == e[..m - 1];
      var antes := set i | 0 <= i < m - 1 && Rango(res, i) < k;
      var ahora := set i | 0 <= i < m && Rango(res, i) < k;
      if Rango(res, m - 1) < k {
        assert ahora == antes + {m - 1};
      } else {
        assert ahora == antes;
      }
    }
  }

  /** The remainder seats handed out total min(max(k, 0), n). */
  lemma ExtrasTotal(res: seq<real>, k: int)
    ensures Suma(Extras(res, k)) == Min(Max(k, 0), |res|)
  {
    var e := Extras(res, k);
    SumaExtrasPrefijo(res, k, |res|);
    assert e[..|res|] == e;
    assert (set i | 0 <= i < |res| && Rango(res, i) < k) == Agraciados(res, k);
    AgraciadosCard(res, k);
  }

  lemma {:induction false} SumaPuntual(a: seq<int>, b: seq<int>, c: seq<int>)
    requires |a| == |b| == |c|
    requires forall i :: 0 <= i < |c| ==> c[i] == a[i] + b[i]
    ensures Suma(c) == Suma(a) + Suma(b)
  {
    if c != [] {
      var n := |c|;
      SumaPuntual(a[..n - 1], b[..n - 1], c[..n - 1]);
    }
  }

  /**
   * The seats handed out are the floor seats plus min(max(restantes, 0), n):
   * one remainder seat for each position of the sort while seats are
   * missing, and none when the floor seats already reach the total.
   */
  lemma CurulesTotal(votos: seq<nat>, q: real, total: int)
    requires q > 0.0
    ensures Suma(Curules(votos, q, total))
         == Suma(Pisos(votos, q)) + Min(Max(Restantes(votos, q, total), 0), |votos|)
  {
    var res := Residuos(votos, q);
    var k := Restantes(votos, q, total);
    SumaPuntual(Pisos(votos, q), Extras(res, k), Curules(votos, q, total));
    ExtrasTotal(res, k);
  }

  /** When 0 <= restantes <= n the method fills exactly the seat total. */
  lemma CurulesReparteTodas(votos: seq<nat>, q: real, total: int)
    requires q > 0.0
    requires 0 <= Restantes(votos, q, total) <= |votos|
    ensures Suma(Curules(votos, q, total)) == total
  {
    CurulesTotal(votos, q, total);
  }

  /** When no seat is missing, nobody receives a remainder seat. */
  lemma CurulesSinRestantes(votos: seq<nat>, q: real, total: int)
    requires q > 0.0
    requires Restantes(votos, q, total) <= 0
    ensures Curules(votos, q, total) == Pisos(votos, q)
  {
  }

  /**
   * If party a receives a remainder seat and party b does not, then a's
   * remainder is larger, or the two are equal and a was entered first.
   */
  lemma CurulesOrden(votos: seq<nat>, q: real, total: int, a: int, b: int)
    requires q > 0.0
    requires 0 <= a < |votos| && 0 <= b < |votos|
    requires Curules(votos, q, total)[a] == Piso(votos[a], q) + 1
    requires Curules(votos, q, total)[b] == Piso(votos[b], q)
    ensures Antes(Residuos(votos, q), a, b)
  {
    var res := Residuos(votos, q);
    if !Antes(res, a, b) {
      assert a != b;
      RangoEstricto(res, b, a);
    }
  }

  // ---------------------------------------------------------------------
  // Bounds against the quotient
  // ---------------------------------------------------------------------

  lemma DivSuma(a: real, b: real, q: real)
    requires q > 0.0
    ensures (a + b) / q == a / q + b / q
  {
  }

  lemma SumaAgregar(s: seq<int>, x: int)
    ensures Suma(s + [x]) == Suma(s) + x
  {
    assert (s + [x])[..|s|] == s;
  }

  lemma PisosAgregar(votos: seq<nat>, v: nat, q: real)
    requires q > 0.0
    ensures Pisos(votos + [v], q) == Pisos(votos, q) + [Piso(v, q)]
  {
  }

  /**
   * The floor seats together are at most the votes over the quotient, and
   * fall short of it by at most one seat per party.
   */
  lemma {:induction false} PisosCota(votos: seq<nat>, q: real)
    requires q > 0.0
    ensures Suma(Pisos(votos, q)) as real <= Suma(votos) as real / q
    ensures Suma(votos) as real / q <= (Suma(Pisos(votos, q)) + |votos|) as real
  {
    if votos == [] {
      assert Pisos(votos, q) == [];
    } else {
      var n := |votos|;
      var init, v := votos[..n - 1], votos[n - 1];
      assert votos == init + [v];
      PisosCota(init, q);
      PisosAgregar(init, v, q);
      SumaAgregar(Pisos(init, q), Piso(v, q));
      SumaAgregar(init, v);
      DivSuma(Suma(init) as real, v as real, q);
    }
  }

  lemma DivMonotona(a: real, b: real, q: real)
    requires a <= b && q > 0.0
    ensures a / q <= b / q
  {
    assert b / q - a / q == (b - a) / q;
  }

  lemma DivHare(v: real, s: real)
    requires v > 0.0 && s > 0.0
    ensures v / (v / s) == s
  {
  }

  lemma DivDroop(v: real, s: real)
    requires v >= 0.0 && s > 0.0
    ensures v / (v / s + 1.0) < s
  {
    var q := v / s + 1.0;
    assert q * s == v + s;
    MulMenor(v / q, s, q) by {
      if v / q >= s {
        MulMenorIgual(s, v / q, q);
        assert (v / q) * q == v;
      }
    }
  }

  /**
   * Hare with the vote total equal to the parties' votes: the floors fall
   * short of the seat total by at most n, so every seat is filled.
   */
  lemma HareReparteTodas(votos: seq<nat>, total: nat)
    requires total > 0 && Suma(votos) > 0
    ensures Suma(Curules(votos, Suma(votos) as real / total as real, total)) == total
  {
    var v := Suma(votos) as real;
    var q := v / total as real;
    PisosCota(votos, q);
    DivHare(v, total as real);
    CurulesReparteTodas(votos, q, total);
  }

  /**
   * When the parties' votes do not exceed the declared vote total, neither
   * Hare nor Droop hands out more seats than the seat total.
   */
  lemma NuncaExcede(votos: seq<nat>, totalVotos: nat, total: nat, q: real)
    requires total > 0 && Suma(votos) <= totalVotos
    requires (totalVotos > 0 && q == totalVotos as real / total as real)
          || q == totalVotos as real / (total + 1) as real + 1.0
    ensures q > 0.0
    ensures Suma(Curules(votos, q, total)) <= total
  {
    var v := totalVotos as real;
    assert q > 0.0;
    PisosCota(votos, q);
    DivMonotona(Suma(votos) as real, v, q);
    if totalVotos > 0 && q == v / total as real {
      DivHare(v, total as real);
    } else {
      DivDroop(v, (total + 1) as real);
    }
    CurulesTotal(votos, q, total);
  }
}
