/** Grades (models/calificacion.py): percentage and pass state of one grade,
    the score sequences every average is taken over, the grades of a section,
    its statistics and its grade matrix. */
module CalificacionModel {
  import opened Util
  import opened Text
  import opened Schema

  /** `if cal.calificacion:` -- a null score and a score of 0 both read as "no score". */
  predicate TieneNota(n: Option<real>) {
    n.Some? && n.value != 0.0
  }

  // ---------------------------------------------------------------------------
  // One grade

  /** porcentaje_nota: the score as a percentage of the lab's maximum. With a
      score and a maximum of 0 the source divides by zero; that call is excluded. */
  function PorcentajeNota(cal: Calificacion, lab: Laboratorio): (r: real)
    requires !TieneNota(cal.calificacion) || lab.puntajeMaximo != 0.0
    ensures !TieneNota(cal.calificacion) ==> r == 0.0
    ensures TieneNota(cal.calificacion) ==> r * lab.puntajeMaximo == cal.calificacion.value * 100.0
  {
    if !TieneNota(cal.calificacion) then 0.0
    else cal.calificacion.value / lab.puntajeMaximo * 100.0
  }

  /** A score inside [0, maximum] is a percentage inside [0, 100]. */
  lemma PorcentajeEnRango(cal: Calificacion, lab: Laboratorio)
    requires lab.puntajeMaximo > 0.0
    requires cal.calificacion.Some? ==> 0.0 <= cal.calificacion.value <= lab.puntajeMaximo
    ensures 0.0 <= PorcentajeNota(cal, lab) <= 100.0
  {
    if TieneNota(cal.calificacion) {
      CocienteEnUnidad(cal.calificacion.value, lab.puntajeMaximo);
    }
  }

  datatype Estado = SinNota | Aprobado | Reprobado

  /** estado_aprobacion: "Sin Nota", or "Aprobado" from 51 percent up. */
  function EstadoAprobacion(cal: Calificacion, lab: Laboratorio): (r: Estado)
    requires !TieneNota(cal.calificacion) || lab.puntajeMaximo != 0.0
    ensures r == SinNota <==> !TieneNota(cal.calificacion)
    ensures r == Aprobado <==> TieneNota(cal.calificacion) && PorcentajeNota(cal, lab) >= 51.0
  {
    if !TieneNota(cal.calificacion) then SinNota
    else if PorcentajeNota(cal, lab) >= 51.0 then Aprobado
    else Reprobado
  }

  /** es_aprobado. With a positive maximum: passed exactly when the score
      reaches 51 percent of the maximum. */
  function EsAprobado(cal: Calificacion, lab: Laboratorio): (r: bool)
    requires !TieneNota(cal.calificacion) || lab.puntajeMaximo != 0.0
    ensures r <==> EstadoAprobacion(cal, lab) == Aprobado
    ensures lab.puntajeMaximo > 0.0 ==>
      (r <==> cal.calificacion.Some? && cal.calificacion.value * 100.0 >= 51.0 * lab.puntajeMaximo)
  {
    if lab.puntajeMaximo > 0.0 && TieneNota(cal.calificacion) then
      UmbralPorcentaje(cal.calificacion.value, lab.puntajeMaximo, PorcentajeNota(cal, lab));
      EstadoAprobacion(cal, lab) == Aprobado
    else
      EstadoAprobacion(cal, lab) == Aprobado
  }

  lemma UmbralPorcentaje(v: real, m: real, p: real)
    requires m > 0.0 && p * m == v * 100.0
    ensures p >= 51.0 <==> v * 100.0 >= 51.0 * m
  {
    if p >= 51.0 {
      assert p * m >= 51.0 * m;
    } else {
      assert p * m < 51.0 * m;
    }
  }

  /** For a lab scored out of 100 the percentage rule of es_aprobado and the
      raw rule "score >= 51" of the statistics agree. */
  lemma UmbralesCoincidenSobre100(cal: Calificacion, lab: Laboratorio)
    requires lab.puntajeMaximo == 100.0
    ensures EsAprobado(cal, lab) <==> cal.calificacion.Some? && cal.calificacion.value >= 51.0
  {
  }

  // ---------------------------------------------------------------------------
  // Score sequences

  /** Which scores an average is taken over: all non-null ones (`is_null(False)`)
      or only truthy ones (`if cal.calificacion`). */
  datatype Filtro = NoNula | Verdadera

  predicate Cuenta(f: Filtro, n: Option<real>) {
    n.Some? && (f.NoNula? || n.value != 0.0)
  }

  /** The scores kept by `f` of the grades `ids`, in that order. */
  function NotasEn(cs: map<nat, Calificacion>, ids: seq<nat>, f: Filtro): seq<real> {
    if ids == [] then []
    else
      var c := ids[|ids| - 1];
      NotasEn(cs, ids[..|ids| - 1], f)
        + (if c in cs && Cuenta(f, cs[c].calificacion) then [cs[c].calificacion.value] else [])
  }

  function EsNota(cs: map<nat, Calificacion>, f: Filtro): nat -> bool {
    (c: nat) => c in cs && Cuenta(f, cs[c].calificacion)
  }

  function EsNotaAlMenos(cs: map<nat, Calificacion>, f: Filtro, t: real): nat -> bool {
    (c: nat) => c in cs && Cuenta(f, cs[c].calificacion) && cs[c].calificacion.value >= t
  }

  lemma {:induction false} NotasEnCuenta(cs: map<nat, Calificacion>, ids: seq<nat>, f: Filtro, t: real)
    ensures |NotasEn(cs, ids, f)| == CountIf(ids, EsNota(cs, f))
    ensures CountAtLeast(NotasEn(cs, ids, f), t) == CountIf(ids, EsNotaAlMenos(cs, f, t))
  {
    if ids != [] {
      var init := ids[..|ids| - 1];
      var c := ids[|ids| - 1];
      NotasEnCuenta(cs, init, f, t);
      var xs := NotasEn(cs, init, f);
      if c in cs && Cuenta(f, cs[c].calificacion) {
        var ys := xs + [cs[c].calificacion.value];
        assert ys[..|ys| - 1] == xs;
      } else {
        assert NotasEn(cs, ids, f) == xs;
      }
    }
  }

  lemma {:induction false} NotasEnRango(cs: map<nat, Calificacion>, ids: seq<nat>, f: Filtro, lo: real, hi: real)
    requires forall i :: 0 <= i < |ids| && ids[i] in cs && cs[ids[i]].calificacion.Some? ==>
      lo <= cs[ids[i]].calificacion.value <= hi
    ensures forall j :: 0 <= j < |NotasEn(cs, ids, f)| ==> lo <= NotasEn(cs, ids, f)[j] <= hi
  {
    if ids != [] {
      var init := ids[..|ids| - 1];
      assert forall i :: 0 <= i < |init| ==> init[i] == ids[i];
      NotasEnRango(cs, init, f, lo, hi);
    }
  }

  /** The scores kept by `f` of the grades `ids`, by increasing key. */
  function NotasDe(db: Db, ids: set<nat>, f: Filtro): seq<real> {
    NotasEn(db.calificaciones, SortedKeys(ids), f)
  }

  /** The grades of `ids` whose score `f` keeps. */
  function Con(db: Db, ids: set<nat>, f: Filtro): set<nat> {
    set c | c in ids && c in db.calificaciones && Cuenta(f, db.calificaciones[c].calificacion)
  }

  /** The grades of `ids` whose kept score is at least `t`. */
  function ConAlMenos(db: Db, ids: set<nat>, f: Filtro, t: real): set<nat> {
    set c | c in Con(db, ids, f) && db.calificaciones[c].calificacion.value >= t
  }

  /** The score sequence has one score per grade it keeps, and counting its
      scores from `t` up counts those grades. */
  lemma NotasDeCuenta(db: Db, ids: set<nat>, f: Filtro, t: real)
    ensures |NotasDe(db, ids, f)| == |Con(db, ids, f)|
    ensures CountAtLeast(NotasDe(db, ids, f), t) == |ConAlMenos(db, ids, f, t)|
  {
    var cs := db.calificaciones;
    var xs := SortedKeys(ids);
    NotasEnCuenta(cs, xs, f, t);
    CountIfSet(xs, EsNota(cs, f));
    CountIfSet(xs, EsNotaAlMenos(cs, f, t));
    assert (set x | x in xs && EsNota(cs, f)(x)) == Con(db, ids, f);
    assert (set x | x in xs && EsNotaAlMenos(cs, f, t)(x)) == ConAlMenos(db, ids, f, t);
  }

  lemma NotasDeRango(db: Db, ids: set<nat>, f: Filtro, lo: real, hi: real)
    requires forall c :: c in ids && c in db.calificaciones && db.calificaciones[c].calificacion.Some? ==>
      lo <= db.calificaciones[c].calificacion.value <= hi
    ensures forall j :: 0 <= j < |NotasDe(db, ids, f)| ==> lo <= NotasDe(db, ids, f)[j] <= hi
  {
    NotasEnRango(db.calificaciones, SortedKeys(ids), f, lo, hi);
  }

  // ---------------------------------------------------------------------------
  // Grades of a section

  function NombreDelEstudiante(db: Db, c: nat): string {
    if c in db.calificaciones && db.calificaciones[c].idEstudiante in db.estudiantes
    then db.estudiantes[db.calificaciones[c].idEstudiante].nombre
    else ""
  }

  function PorNombreDelEstudiante(db: Db): nat -> string {
    (c: nat) => NombreDelEstudiante(db, c)
  }

  /** obtener_por_paralelo: the grades of the section's students, by student name. */
  method ObtenerPorParalelo(db: Db, p: nat) returns (r: seq<nat>)
    ensures IsListing(r, CalificacionesDeParalelo(db, p))
    ensures SortedBy(r, PorNombreDelEstudiante(db), StrLe)
  {
    StrLeIsTotalOrder();
    r := SortBy(CalificacionesDeParalelo(db, p), PorNombreDelEstudiante(db), StrLe);
  }

  datatype EstadisticasParalelo = EstadisticasParalelo(
    totalCalificaciones: nat, promedioGeneral: real, aprobados: nat, reprobados: nat, sinCalificar: nat)

  /** The grades of `ids` still without a score. */
  function SinCalificar(db: Db, ids: set<nat>): set<nat> {
    set c | c in ids && c in db.calificaciones && db.calificaciones[c].calificacion.None?
  }

  /** estadisticas_paralelo: counts of scored, passed (raw score >= 51), failed
      and unscored grades of the section, and the mean of its scores. */
  function EstadisticasDeParalelo(db: Db, p: nat): (r: EstadisticasParalelo)
    ensures r.totalCalificaciones == |Con(db, CalificacionesDeParalelo(db, p), NoNula)|
    ensures r.aprobados == |ConAlMenos(db, CalificacionesDeParalelo(db, p), NoNula, 51.0)|
    ensures r.aprobados + r.reprobados == r.totalCalificaciones
    ensures r.sinCalificar == |SinCalificar(db, CalificacionesDeParalelo(db, p))|
    ensures r.totalCalificaciones == 0 ==> r.promedioGeneral == 0.0 && r.aprobados == 0
    ensures r.totalCalificaciones > 0 ==>
      r.promedioGeneral == Sum(NotasDe(db, CalificacionesDeParalelo(db, p), NoNula)) / (r.totalCalificaciones as real)
  {
    var ids := CalificacionesDeParalelo(db, p);
    var notas := NotasDe(db, ids, NoNula);
    NotasDeCuenta(db, ids, NoNula, 51.0);
    var sin := |SinCalificar(db, ids)|;
    if |notas| == 0 then
      EstadisticasParalelo(0, 0.0, 0, 0, sin)
    else
      var aprobados := CountAtLeast(notas, 51.0);
      EstadisticasParalelo(|notas|, Mean(notas), aprobados, |notas| - aprobados, sin)
  }

  // ---------------------------------------------------------------------------
  // Grade matrix of a section

  /** One row of the matrix: the student, one cell per lab keyed "lab_<numero>",
      and the row average. */
  datatype Fila = Fila(
    estudiante: string, ci: string, grupo: Option<string>,
    calificaciones: map<string, Option<real>>, promedio: real)

  function Clave(numero: int): string {
    "lab_" + IntToString(numero)
  }

  /** The cell of lab `l` in the row of student `e`: None without a grade row,
      otherwise the score, a null score shown as 0. */
  function Celda(db: Db, e: nat, l: nat): Option<real> {
    var g := Least(CalificacionesDe(db, e, l));
    if g.None? then None
    else
      var n := db.calificaciones[g.value].calificacion;
      Some(if TieneNota(n) then n.value else 0.0)
  }

  function NumeroDe(db: Db, l: nat): int {
    if l in db.laboratorios then db.laboratorios[l].numero else 0
  }

  /** The cells of a row after visiting the labs `labs` in order. */
  function CeldasFila(db: Db, e: nat, labs: seq<nat>): map<string, Option<real>> {
    if labs == [] then map[]
    else
      var l := labs[|labs| - 1];
      CeldasFila(db, e, labs[..|labs| - 1])[Clave(NumeroDe(db, l)) := Celda(db, e, l)]
  }

  /** The truthy scores of the row, in lab order: what its average is over. */
  function NotasFila(db: Db, e: nat, labs: seq<nat>): seq<real> {
    if labs == [] then []
    else
      var l := labs[|labs| - 1];
      var c := Celda(db, e, l);
      NotasFila(db, e, labs[..|labs| - 1]) + (if c.Some? && c.value != 0.0 then [c.value] else [])
  }

  /** The row the matrix holds for student `e` over the lab order `labs`. */
  function FilaDe(db: Db, e: nat, labs: seq<nat>): Fila
    requires e in db.estudiantes
  {
    var est := db.estudiantes[e];
    Fila(est.nombre, est.ci, est.grupo, CeldasFila(db, e, labs), Mean(NotasFila(db, e, labs)))
  }

  /** The row has one key per lab visited. */
  lemma {:induction false} CeldasFilaClaves(db: Db, e: nat, labs: seq<nat>)
    ensures CeldasFila(db, e, labs).Keys == set l | l in labs :: Clave(NumeroDe(db, l))
  {
    if labs != [] {
      var init := labs[..|labs| - 1];
      CeldasFilaClaves(db, e, init);
      var last := labs[|labs| - 1];
      assert labs == init + [last];
      assert (set l | l in labs :: Clave(NumeroDe(db, l)))
        == (set l | l in init :: Clave(NumeroDe(db, l))) + {Clave(NumeroDe(db, last))};
    }
  }

  /** When the labs carry distinct numbers, each lab's key holds that lab's cell. */
  lemma {:induction false} CeldasFilaValores(db: Db, e: nat, labs: seq<nat>, i: nat)
    requires i < |labs|
    requires forall j, k :: 0 <= j < k < |labs| ==> NumeroDe(db, labs[j]) != NumeroDe(db, labs[k])
    ensures Clave(NumeroDe(db, labs[i])) in CeldasFila(db, e, labs)
    ensures CeldasFila(db, e, labs)[Clave(NumeroDe(db, labs[i]))] == Celda(db, e, labs[i])
  {
    CeldasFilaClaves(db, e, labs);
    var init := labs[..|labs| - 1];
    var last := labs[|labs| - 1];
    if i < |labs| - 1 {
      assert init[i] == labs[i];
      CeldasFilaValores(db, e, init, i);
      if Clave(NumeroDe(db, labs[i])) == Clave(NumeroDe(db, last)) {
        PrefixedIntInjective("lab_", NumeroDe(db, labs[i]), NumeroDe(db, last));
      }
    }
  }

  /** The row average is over the truthy cells: 0.0 when there are none. */
  lemma FilaPromedio(db: Db, e: nat, labs: seq<nat>)
    requires e in db.estudiantes
    ensures |NotasFila(db, e, labs)| == 0 ==> FilaDe(db, e, labs).promedio == 0.0
    ensures |NotasFila(db, e, labs)| > 0 ==>
      FilaDe(db, e, labs).promedio == Sum(NotasFila(db, e, labs)) / (|NotasFila(db, e, labs)| as real)
    ensures forall j :: 0 <= j < |NotasFila(db, e, labs)| ==> NotasFila(db, e, labs)[j] != 0.0
  {
    NotasFilaNoCero(db, e, labs);
  }

  lemma {:induction false} NotasFilaNoCero(db: Db, e: nat, labs: seq<nat>)
    ensures forall j :: 0 <= j < |NotasFila(db, e, labs)| ==> NotasFila(db, e, labs)[j] != 0.0
  {
    if labs != [] {
      NotasFilaNoCero(db, e, labs[..|labs| - 1]);
    }
  }

  lemma FilaPaso(db: Db, e: nat, labs: seq<nat>, j: nat)
    requires j < |labs|
    ensures CeldasFila(db, e, labs[..j + 1]) == CeldasFila(db, e, labs[..j])[Clave(NumeroDe(db, labs[j])) := Celda(db, e, labs[j])]
    ensures var c := Celda(db, e, labs[j]);
      && (c.Some? && c.value != 0.0 ==> NotasFila(db, e, labs[..j + 1]) == NotasFila(db, e, labs[..j]) + [c.value])
      && (!(c.Some? && c.value != 0.0) ==> NotasFila(db, e, labs[..j + 1]) == NotasFila(db, e, labs[..j]))
  {
    assert labs[..j + 1][..j] == labs[..j];
    assert NotasFila(db, e, labs[..j]) + [] == NotasFila(db, e, labs[..j]);
  }

  lemma SumaPaso(xs: seq<real>, v: real)
    ensures Sum(xs + [v]) == Sum(xs) + v
  {
    assert (xs + [v])[..|xs|] == xs;
  }

  /** One row: the inner loop over the labs, accumulating the truthy scores. */
  method CalcularFila(db: Db, e: nat, laboratorios: seq<nat>) returns (fila: Fila)
    requires e in db.estudiantes
    ensures fila == FilaDe(db, e, laboratorios)
  {
    var est := db.estudiantes[e];
    var celdas: map<string, Option<real>> := map[];
    var totalNotas := 0.0;
    var countNotas := 0;
    var j := 0;
    while j < |laboratorios|
      invariant 0 <= j <= |laboratorios|
      invariant celdas == CeldasFila(db, e, laboratorios[..j])
      invariant countNotas == |NotasFila(db, e, laboratorios[..j])|
      invariant totalNotas == Sum(NotasFila(db, e, laboratorios[..j]))
    {
      var l := laboratorios[j];
      FilaPaso(db, e, laboratorios, j);
      var g := Least(CalificacionesDe(db, e, l));
      if g.None? {
        celdas := celdas[Clave(NumeroDe(db, l)) := None];
      } else {
        var n := db.calificaciones[g.value].calificacion;
        var nota := if TieneNota(n) then n.value else 0.0;
        assert Celda(db, e, l) == Some(nota);
        celdas := celdas[Clave(NumeroDe(db, l)) := Some(nota)];
        if TieneNota(n) {
          SumaPaso(NotasFila(db, e, laboratorios[..j]), n.value);
          totalNotas := totalNotas + n.value;
          countNotas := countNotas + 1;
        }
      }
      j := j + 1;
    }
    assert laboratorios[..j] == laboratorios;
    var promedio := if countNotas > 0 then totalNotas / (countNotas as real) else 0.0;
    fila := Fila(est.nombre, est.ci, est.grupo, celdas, promedio);
  }

  function NombreDe(db: Db): nat -> string {
    (e: nat) => if e in db.estudiantes then db.estudiantes[e].nombre else ""
  }

  function PorNumero(db: Db): nat -> int {
    (l: nat) => NumeroDe(db, l)
  }

  /** Under the (course, numero) index the labs of one course, listed, carry
      distinct numbers. */
  lemma NumerosDistintos(db: Db, m: nat, labs: seq<nat>)
    requires NumerosUnicos(db.laboratorios)
    requires IsListing(labs, LaboratoriosDe(db, m))
    ensures forall j, k :: 0 <= j < k < |labs| ==> NumeroDe(db, labs[j]) != NumeroDe(db, labs[k])
  {
    forall j, k | 0 <= j < k < |labs| ensures NumeroDe(db, labs[j]) != NumeroDe(db, labs[k]) {
      assert labs[j] in LaboratoriosDe(db, m) && labs[k] in LaboratoriosDe(db, m);
      assert labs[j] != labs[k];
    }
  }

  /** A matrix row of a valid database has exactly one key "lab_<numero>" per
      lab of the course, and that key holds the lab's cell. */
  lemma FilaCompleta(db: Db, m: nat, labs: seq<nat>, e: nat)
    requires Valid(db)
    requires e in db.estudiantes
    requires IsListing(labs, LaboratoriosDe(db, m))
    ensures FilaDe(db, e, labs).calificaciones.Keys
      == set l | l in LaboratoriosDe(db, m) :: Clave(db.laboratorios[l].numero)
    ensures forall l :: l in LaboratoriosDe(db, m) ==>
      FilaDe(db, e, labs).calificaciones[Clave(db.laboratorios[l].numero)] == Celda(db, e, l)
  {
    CeldasFilaClaves(db, e, labs);
    NumerosDistintos(db, m, labs);
    forall l | l in LaboratoriosDe(db, m)
      ensures FilaDe(db, e, labs).calificaciones[Clave(db.laboratorios[l].numero)] == Celda(db, e, l)
    {
      var i :| 0 <= i < |labs| && labs[i] == l;
      CeldasFilaValores(db, e, labs, i);
    }
  }

  /** matriz_calificaciones_paralelo: one row per student of the section in
      name order, visiting the labs of the section's course in number order. */
  method MatrizCalificacionesParalelo(db: Db, p: nat)
    returns (matriz: seq<Fila>, ghost orden: seq<nat>, ghost labs: seq<nat>)
    requires p in db.paralelos
    ensures IsListing(orden, EstudiantesDe(db, p))
    ensures SortedBy(orden, NombreDe(db), StrLe)
    ensures IsListing(labs, LaboratoriosDe(db, db.paralelos[p].idMateria))
    ensures SortedBy(labs, PorNumero(db), IntLe)
    ensures |matriz| == |orden|
    ensures forall i :: 0 <= i < |orden| ==> orden[i] in db.estudiantes && matriz[i] == FilaDe(db, orden[i], labs)
  {
    StrLeIsTotalOrder();
    IntLeIsTotalPreorder();
    var estudiantes := SortBy(EstudiantesDe(db, p), NombreDe(db), StrLe);
    var laboratorios := SortBy(LaboratoriosDe(db, db.paralelos[p].idMateria), PorNumero(db), IntLe);
    orden, labs := estudiantes, laboratorios;
    matriz := [];
    var i := 0;
    while i < |estudiantes|
      invariant 0 <= i <= |estudiantes|
      invariant |matriz| == i
      invariant forall k :: 0 <= k < i ==> estudiantes[k] in db.estudiantes && matriz[k] == FilaDe(db, estudiantes[k], laboratorios)
    {
      assert estudiantes[i] in EstudiantesDe(db, p);
      var fila := CalcularFila(db, estudiantes[i], laboratorios);
      matriz := matriz + [fila];
      i := i + 1;
    }
  }
}
