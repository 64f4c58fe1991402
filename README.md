# Electoral quotient (cuociente electoral): a verified Dafny model

This project models a seat-apportionment calculator with two parts:

- **The generic engine (`CuocienteElectoral`).** It holds the valid-vote total, the seat total and the parties in entry order. It computes the simple (Hare) or Droop quotient. Then it assigns seats in two passes over the parties, rewriting each party's seats and remainder in place:
  - Pass one gives each party floor(votes / q) seats and keeps votes mod q as its remainder.
  - Pass two sorts the parties stably by remainder, largest first, and gives one more seat to each of the first min(missing, n) parties of that order, where missing is the seat total minus the floor seats and n the number of parties.
- **The Colombian overlay (`CuocienteElectoralColombia`).** It adds:
  - a table of seats, threshold and method per election type, and a seat override;
  - a minimum-vote threshold that selects the qualified parties;
  - an absolute-majority rule for mayoralties;
  - the same two-pass fill, rerun over the qualified parties alone, with the quotient computed from their votes.

Modules:

- `Comun` (`comun.dfy`): the `Option` and `Result` wrappers.
- `MayorResiduo` (`mayor_residuo.dfy`): the largest-remainder method as pure functions over the vote sequence, with its properties.
  - The stable sort is stated by rank. A party's rank is the number of parties with a strictly larger remainder, or an equal remainder and an earlier entry. A party gets an extra seat exactly when its rank is below the number of seats still missing.
  - The lemmas prove that the ranks are exactly the positions 0 .. n-1. From that follow the number of extra seats, the ordering rule, and the seat totals under Hare and Droop.
- `Cuociente` (`cuociente.dfy`): the engine.
  - The quotient calculations are functions of the two totals.
  - `CuocienteElectoral` is a class whose `partidos` field is a sequence of `Partido` values. Its methods reassign that field.
  - The assignment method resets, runs the first pass and runs the second pass with loops. It is proved to leave the parties in the state that `MayorResiduo.Curules` and `MayorResiduo.Residuos` describe.
- `Colombia` (`colombia.dfy`): the overlay.
  - The configuration table, the seat choice, the threshold filter, the majority rule and the overlay's quotient are functions.
  - `CuocienteElectoralColombia` is a class. Its assignment method writes only the qualified parties, which are identified by their positions.

Numbers are exact:

- Votes and seats are `nat`.
- Quotients and remainders are `real`.
- Python's `int(v / q)` is `.Floor`. Python's `v % q` for `q > 0` is `v - floor(v / q) * q`.
- The threshold test is `votos >= total * umbral` with `umbral` as the exact rationals 3/100 and 1/2.

The Python exceptions become `Err` values of `Cuociente.Error`:

- `CurulesCero`: a zero seat total in a quotient or the engine (`ValueError`).
- `MetodoInvalido`: a method name other than "hare" or "droop" (`ValueError`).
- `DivisionPorCero`: a zero quotient used as a divisor (`ZeroDivisionError`).
- `CurulesIndefinidas`: an assembly or council run without a seat count (`TypeError` on `None`).

In each case the model states which party updates happened before the error.

Some behaviour of the code is easy to mistake:

- **The demonstration election (one million votes, ten seats).** Under Hare the code yields Liberal 4, Conservador 3, Verde 1, Centro 1, Polo 1, Otros 0 (`Cuociente.EjemploHare`). Droop gives the same seats (`Cuociente.EjemploDroop`).
- **Droop versus Hare.** The Droop quotient is not always at most the Hare quotient. It is at most the Hare quotient exactly when V >= S * (S + 1) (`Cuociente.DroopFrenteAHare`). What does hold for both methods, provided the parties' votes add up to at most the vote total the engine was given, is that the fill never hands out more than S seats (`MayorResiduo.NuncaExcede`). The engine takes that total separately and does not check it: a single party with 100 votes under a stored total of 10 votes and one seat receives ten seats (`Cuociente.EjemploVotosExcedidos`).
- **Disqualified parties.** The overlay does not reset them to zero seats. They keep whatever seats and remainder they had (`Colombia.Repartido`).
- **Zero seats.** Only a seat total of exactly 0 is refused; the counts are `nat`.

## Model

| member | source | states |
|---|---|---|
| Cuociente.ElegirMetodo | cuociente_electoral.py:80-85 | Hare exactly when the lower-cased name is "hare", Droop exactly when it is "droop", and no method for any other name |
| Cuociente.CuocienteSimple | cuociente_electoral.py:45-52 | an error exactly when the seat total is 0, and then it is the zero-seat error; otherwise a non-negative q with q * S == V |
| Cuociente.CuocienteHare | cuociente_electoral.py:54-59 | the Hare quotient is the simple quotient: an error exactly when the seat total is 0, and then the zero-seat error; otherwise q >= 0 with q * S == V |
| Cuociente.CuocienteDroop | cuociente_electoral.py:61-68 | an error exactly when the seat total is 0, and then the zero-seat error; otherwise q >= 1 with (q - 1) * (S + 1) == V |
| Cuociente.CalcularCuociente | cuociente_electoral.py:80-85 | the chosen method's quotient: the zero-seat error exactly when S == 0; q * S == V for Hare, q >= 1 and (q - 1) * (S + 1) == V for Droop; q is 0 only for Hare with no votes |
| Cuociente.DroopFrenteAHare | cuociente_electoral.py:54-68 | for S > 0 both quotients exist, and Droop <= Hare holds if and only if V >= S * (S + 1) |
| Cuociente.MetodoSinMayusculas | cuociente_electoral.py:80-85 | two method names that differ only in letter case choose the same method (or both fail) |
| Cuociente.PorcentajeVotos | cuociente_electoral.py:118-122 | 0 when no vote was cast; otherwise r * total == votes * 100; within [0, 100] when the votes do not exceed the total |
| Cuociente.CuocienteElectoral.constructor | cuociente_electoral.py:29-39 | stores both totals and starts with no party |
| Cuociente.CuocienteElectoral.AgregarPartido | cuociente_electoral.py:41-43 | appends one party with the given name and votes, no seats and a zero remainder |
| Cuociente.CuocienteElectoral.AsignarCurulesPorCuociente | cuociente_electoral.py:70-116 | an unknown method or zero seats fails with no party touched; a zero quotient leaves every party reset and fails if there is any party; otherwise every party holds its largest-remainder seats and remainder and the result is the name -> seats table in entry order |
| Cuociente.CuocienteElectoral.Reiniciar | cuociente_electoral.py:87-90 | every party has zero seats and a zero remainder; names and votes are kept |
| Cuociente.CuocienteElectoral.AsignarPorCuociente | cuociente_electoral.py:92-98 | every party holds floor(votes / q) seats and its remainder; the returned count is the sum of the floor seats |
| Cuociente.CuocienteElectoral.AsignarPorResiduos | cuociente_electoral.py:100-114 | exactly the parties ranked below the missing-seat count gain one seat; nothing else changes |
| Cuociente.PasadasReparten | cuociente_electoral.py:87-114 | reset, first pass and (only when seats are missing) second pass end in the largest-remainder state |
| Cuociente.RepartidosOlvidaPrevio | cuociente_electoral.py:87-98 | the outcome of a run depends only on names and votes, not on what earlier runs left in the parties |
| Cuociente.EjemploHare | cuociente_electoral.py:184-201 | the demonstration election under Hare: q = 100000, floors 3,2,1,1,0,0, the stated remainders, final seats 4,3,1,1,1,0 |
| Cuociente.EjemploDroop | cuociente_electoral.py:184-201 | the demonstration election under Droop: q = 1000000/11 + 1, floors 3,3,1,1,0,0, final seats 4,3,1,1,1,0 |
| Cuociente.EjemploVotosExcedidos | cuociente_electoral.py:92-103 | with a stored vote total of 10, one seat and a single party of 100 votes, q = 10 and the party gets 10 seats |
| MayorResiduo.Suma | cuociente_colombia_especifico.py:133 | the sum of non-negative votes is non-negative |
| MayorResiduo.Piso | cuociente_electoral.py:95 | the floor seats c satisfy c <= votes / q < c + 1 |
| MayorResiduo.Residuo | cuociente_electoral.py:97 | the remainder lies in [0, q) and floor * q + remainder == votes |
| MayorResiduo.Curules | cuociente_electoral.py:92-114 | one entry per party, each the party's floor seats or one more |
| MayorResiduo.RangoCota | cuociente_electoral.py:105-109 | a party's position in the stable sort by remainder is below the number of parties |
| MayorResiduo.RangoEstricto | cuociente_electoral.py:105-109 | a party ranked before another (larger remainder, or equal and earlier) has a smaller position |
| MayorResiduo.RangoInyectivo | cuociente_electoral.py:105-109 | two different parties never share a position in the sorted order |
| MayorResiduo.RangosPermutacion | cuociente_electoral.py:105-109 | the positions of the n parties are exactly 0 .. n-1 |
| MayorResiduo.RangoSobreyectivo | cuociente_electoral.py:105-109 | every position 0 .. n-1 is held by some party |
| MayorResiduo.AgraciadosCard | cuociente_electoral.py:111-114 | the parties that receive an extra seat number min(max(k, 0), n) for k missing seats |
| MayorResiduo.ExtrasTotal | cuociente_electoral.py:111-114 | the extra seats add up to min(max(k, 0), n) |
| MayorResiduo.CurulesTotal | cuociente_electoral.py:100-114 | total seats == sum of floor seats + min(max(missing, 0), number of parties) |
| MayorResiduo.CurulesReparteTodas | cuociente_electoral.py:100-114 | when 0 <= missing seats <= number of parties, exactly the seat total is handed out |
| MayorResiduo.CurulesSinRestantes | cuociente_electoral.py:103 | with no missing seat, every party keeps exactly its floor seats |
| MayorResiduo.CurulesOrden | cuociente_electoral.py:105-114 | a party that gets an extra seat has a larger remainder than one that does not, or an equal remainder and an earlier entry |
| MayorResiduo.PisosCota | cuociente_electoral.py:92-98 | sum of floors <= (sum of votes) / q <= sum of floors + number of parties |
| MayorResiduo.HareReparteTodas | cuociente_electoral.py:54-114 | with the Hare quotient over the parties' own votes, exactly the seat total is handed out |
| MayorResiduo.NuncaExcede | cuociente_electoral.py:54-114 | when the parties' votes do not exceed the vote total, both quotients are positive and the fill never hands out more than the seat total |
| Colombia.Configuraciones | cuociente_colombia_especifico.py:30-56 | Senate 100 seats, House 166, mayoralty 1; only mayoralties use the majority rule (at 50%); every other type is Hare at 3%; only assemblies and councils lack a seat count |
| Colombia.CurulesElegidas | cuociente_colombia_especifico.py:70-73 | a non-zero override wins, otherwise the table's seat count is used; the count is absent exactly for an assembly or council without override; it is never 0 |
| Colombia.Califica | cuociente_colombia_especifico.py:85-90 | votes >= total * threshold; at 3% that is 100 * votes >= 3 * total, at 50% 2 * votes >= total; a threshold of 0 or below admits every party |
| Colombia.IndicesCalificados | cuociente_colombia_especifico.py:85-92 | strictly increasing positions of qualifying parties, every qualifying party appears, and when all qualify the positions are 0 .. n-1 |
| Colombia.AplicarUmbral | cuociente_colombia_especifico.py:80-92 | every kept party is one of the parties and qualifies; never more parties than given; when every party qualifies the list is returned whole and in order; an empty list gives an empty list |
| Colombia.AplicarUmbralAgregar | cuociente_colombia_especifico.py:85-92 | the filter keeps entry order and every copy: appending a party appends it to the result exactly when it qualifies |
| Colombia.AplicarUmbralExacto | cuociente_colombia_especifico.py:80-92 | a party is kept exactly when it is one of the parties and its votes are >= total * threshold; never more parties than given |
| Colombia.PrimerMaximo | cuociente_colombia_especifico.py:101-108 | a position with the largest vote count, every earlier party having strictly fewer votes (the head of the stable sort) |
| Colombia.MayoriaAbsoluta | cuociente_colombia_especifico.py:94-117 | empty exactly without parties; one seat for the first top party when its votes exceed half the total; a runoff exactly when no party exceeds half (so exactly half is not enough) |
| Colombia.CuocienteCalificado | cuociente_colombia_especifico.py:133-138 | Hare fails exactly on zero seats, with the division error, and the other branch never fails; the other branch is the Droop formula with no guard; for positive seats it equals the engine's Hare or Droop quotient; zero only for Hare over zero votes |
| Colombia.RepartidoComoMotor | cuociente_colombia_especifico.py:140-161 | over the qualified parties the overlay leaves exactly the state the engine computes for them alone |
| Colombia.RepartidoCotas | cuociente_colombia_especifico.py:140-159 | each qualified party holds its floor seats or one more and a remainder in [0, q); the qualified seats add up to floors + min(max(missing, 0), qualified count) |
| Colombia.RepartidoOrden | cuociente_colombia_especifico.py:146-159 | among qualified parties, one with an extra seat has a larger remainder than one without, or an equal one and an earlier entry |
| Colombia.RepartidoHare | cuociente_colombia_especifico.py:133-159 | with the Hare quotient over positive qualified votes, the qualified parties hold exactly the seat total |
| Colombia.PasadasCalificadas | cuociente_colombia_especifico.py:140-159 | the first pass and (only when seats are missing) the second pass over the qualified parties end in the overlay's final state |
| Colombia.CuocienteElectoralColombia.constructor | cuociente_colombia_especifico.py:58-78 | the seat total is the override-or-table choice; threshold and method come from the table; no party yet |
| Colombia.CuocienteElectoralColombia.AgregarPartido | cuociente_electoral.py:41-43 | the inherited append: one new party with no seats and a zero remainder |
| Colombia.CuocienteElectoralColombia.AsignarCurulesColombia | cuociente_colombia_especifico.py:119-161 | a mayoralty is the majority rule with nothing written; no qualified party gives an empty table; a missing seat count or a zero quotient fails with nothing written; otherwise the qualified parties hold their largest-remainder seats among themselves, the others are unchanged, and the table lists the qualified parties |
| Colombia.CuocienteElectoralColombia.AsignarPisosCalificados | cuociente_colombia_especifico.py:140-147 | each qualified party holds its floor seats and remainder, the others are unchanged; the returned count is the sum of the qualified floor seats |
| Colombia.CuocienteElectoralColombia.AsignarResiduosCalificados | cuociente_colombia_especifico.py:146-159 | exactly the qualified parties ranked below the missing-seat count gain one seat; nothing else changes |

## Left out

- votacion_app.py is not part of this model. It is a web user-interface script with its own inline copy of the Hare computation.
- Report rendering (`generar_reporte`, `generar_reporte_colombia`, `_generar_reporte_alcaldia`) only formats strings and is not modelled.
- The demonstration and interactive entry points, and the `__main__` dispatch, are console I/O and are not modelled. The demonstration election's data appears only in `Cuociente.EjemploHare` and `Cuociente.EjemploDroop`.
- The arithmetic is modelled exactly, not as IEEE floating point. Python's float division, `%`, `int()` and the product `total * 0.03` are exact rationals. Rounding artefacts at the threshold boundary or in remainder ties are not captured.
- Votes and seat totals are `nat`. Negative values, which Python would accept, are outside the model.
- The method name is lower-cased over ASCII letters only. Python's `lower()` also maps other Unicode letters, but none of them lower-cases into the letters of "hare" or "droop", so the choice of method is the same.
- The result dictionary is modelled as a sequence of (name, seats) pairs in entry order. The model does not capture a later party overwriting an earlier one with the same name.
- The stable sort in the second pass is stated by rank, not computed. Both classes hold parties as a sequence of values rather than shared objects. Python's aliasing between `self.partidos` and the sorted or filtered lists is modelled by positions.
- The quotient methods `calcular_cuociente_simple`, `calcular_cuociente_hare` and `calcular_cuociente_droop`, and `calcular_porcentaje_votos`, read only the totals of the object. They are modelled as module functions of those totals, not as class members.
- The overlay class carries its own copy of `AgregarPartido`. It does not model calling the inherited engine method `asignar_curules_por_cuociente` on an overlay object.
- The unused imports (`math`, `Decimal`, `ROUND_HALF_UP`) have no behaviour and are not modelled.
- The default argument `metodo="hare"` of `asignar_curules_por_cuociente` is not modelled: a caller must pass the method name.
