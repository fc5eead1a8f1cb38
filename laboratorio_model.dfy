/** Lab assignments (models/laboratorio.py): grade counts, the average and the
    detailed statistics of a lab, plus the two lab helpers that the source
    places in models/materia.py (numbering and the ordered listing). */
module LaboratorioModel {
  import opened Util
  import opened Schema
  import opened CalificacionModel

  /** `puntaje_maximo = FloatField(default=100.0)` */
  const PuntajeMaximoPorDefecto: real := 100.0

  /** contar_calificaciones */
  function ContarCalificaciones(db: Db, l: nat): nat {
    |CalificacionesDeLaboratorio(db, l)|
  }

  /** The non-null scores of the lab's grades. */
  function NotasLab(db: Db, l: nat): seq<real> {
    NotasDe(db, CalificacionesDeLaboratorio(db, l), NoNula)
  }

  /** promedio_calificaciones: mean of the non-null scores, 0.0 without any. */
  function PromedioCalificaciones(db: Db, l: nat): (r: real)
    ensures |Con(db, CalificacionesDeLaboratorio(db, l), NoNula)| == 0 ==> r == 0.0
    ensures |Con(db, CalificacionesDeLaboratorio(db, l), NoNula)| > 0 ==>
      r == Sum(NotasLab(db, l)) / (|Con(db, CalificacionesDeLaboratorio(db, l), NoNula)| as real)
  {
    var ids := CalificacionesDeLaboratorio(db, l);
    NotasDeCuenta(db, ids, NoNula, 0.0);
    Mean(NotasLab(db, l))
  }

  /** When every score of the lab lies in [0, puntaje_maximo], as registration
      and update enforce, so does the average. */
  lemma PromedioEnRango(db: Db, l: nat)
    requires l in db.laboratorios && db.laboratorios[l].puntajeMaximo >= 0.0
    requires forall c :: c in CalificacionesDeLaboratorio(db, l) && db.calificaciones[c].calificacion.Some? ==>
      0.0 <= db.calificaciones[c].calificacion.value <= db.laboratorios[l].puntajeMaximo
    ensures 0.0 <= PromedioCalificaciones(db, l) <= db.laboratorios[l].puntajeMaximo
  {
    var notas := NotasLab(db, l);
    NotasDeRango(db, CalificacionesDeLaboratorio(db, l), NoNula, 0.0, db.laboratorios[l].puntajeMaximo);
    if |notas| > 0 {
      MeanWithin(notas, 0.0, db.laboratorios[l].puntajeMaximo);
    }
  }

  datatype EstadisticasLab = EstadisticasLab(
    totalCalificaciones: nat, promedio: real, notaMaxima: real, notaMinima: real,
    aprobados: nat, reprobados: nat)

  /** estadisticas_detalladas. Without scores: zero counts, average 0.0, the
      maximum reported as the lab's puntaje_maximo and the minimum as 0.0.
      With scores: the extremes are actual scores and bracket the average;
      passes count raw scores >= 51. */
  function EstadisticasDetalladas(db: Db, l: nat): (r: EstadisticasLab)
    requires l in db.laboratorios
    ensures r.totalCalificaciones == |Con(db, CalificacionesDeLaboratorio(db, l), NoNula)|
    ensures r.aprobados == |ConAlMenos(db, CalificacionesDeLaboratorio(db, l), NoNula, 51.0)|
    ensures r.aprobados + r.reprobados == r.totalCalificaciones
    ensures r.totalCalificaciones == 0 ==>
      r == EstadisticasLab(0, 0.0, db.laboratorios[l].puntajeMaximo, 0.0, 0, 0)
    ensures r.totalCalificaciones > 0 ==>
      && r.notaMinima <= r.promedio <= r.notaMaxima
      && r.notaMaxima in NotasLab(db, l) && r.notaMinima in NotasLab(db, l)
      && (forall i :: 0 <= i < |NotasLab(db, l)| ==> r.notaMinima <= NotasLab(db, l)[i] <= r.notaMaxima)
      && r.promedio == PromedioCalificaciones(db, l)
  {
    var notas := NotasLab(db, l);
    NotasDeCuenta(db, CalificacionesDeLaboratorio(db, l), NoNula, 51.0);
    if |notas| == 0 then
      EstadisticasLab(0, 0.0, db.laboratorios[l].puntajeMaximo, 0.0, 0, 0)
    else
      MeanBetweenMinAndMax(notas);
      var aprobados := CountAtLeast(notas, 51.0);
      EstadisticasLab(|notas|, Mean(notas), MaxOf(notas), MinOf(notas), aprobados, |notas| - aprobados)
  }

  // ---------------------------------------------------------------------------
  // Helpers the source defines on Materia although they query Laboratorio
  // (models/materia.py:59-74). They are modelled as evidently intended: the
  // course's labs ordered by number, and the largest number plus one.

  function UltimoNumero(ls: map<nat, Laboratorio>, ids: set<nat>): (r: int)
    requires ids != {} && ids <= ls.Keys
    ensures exists i :: i in ids && ls[i].numero == r
    ensures forall i :: i in ids ==> ls[i].numero <= r
    decreases ids
  {
    MinExists(ids);
    var k :| IsLeast(k, ids);
    if ids == {k} then ls[k].numero
    else
      var resto := UltimoNumero(ls, ids - {k});
      if ls[k].numero > resto then ls[k].numero else resto
  }

  /** obtener_siguiente_numero: one past the largest number of the course's
      labs, or 1 for a course without labs. */
  function SiguienteNumero(db: Db, m: nat): (n: int)
    ensures forall l :: l in LaboratoriosDe(db, m) ==> db.laboratorios[l].numero < n
    ensures LaboratoriosDe(db, m) == {} ==> n == 1
    ensures LaboratoriosDe(db, m) != {} ==>
      exists l :: l in LaboratoriosDe(db, m) && db.laboratorios[l].numero == n - 1
  {
    if LaboratoriosDe(db, m) == {} then 1
    else UltimoNumero(db.laboratorios, LaboratoriosDe(db, m)) + 1
  }

  /** obtener_por_materia: the course's labs ordered by number. */
  method ObtenerPorMateria(db: Db, m: nat) returns (r: seq<nat>)
    ensures IsListing(r, LaboratoriosDe(db, m))
    ensures SortedBy(r, PorNumero(db), IntLe)
  {
    IntLeIsTotalPreorder();
    r := SortBy(LaboratoriosDe(db, m), PorNumero(db), IntLe);
  }
}
