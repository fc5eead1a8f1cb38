/** Course operations (managers/materia_manager.py): create, list, look up,
    update, delete with or without cascade, system-wide statistics and search. */
module MateriaManager {
  import opened Util
  import opened Text
  import opened Schema
  import opened Database
  import opened MateriaModel

  /** Some course already uses the code. */
  predicate SiglaEnUso(db: Db, sigla: string) {
    exists m :: m in db.materias && db.materias[m].sigla == sigla
  }

  /** crear_materia: name and code are stored stripped and upper-cased; a code
      already in use (compared after normalising) violates the unique index,
      and the result is None with nothing created. */
  method CrearMateria(s: Store, materia: string, sigla: string) returns (r: Option<nat>)
    requires s.Valid()
    modifies s
    ensures s.Valid()
    ensures r.None? <==> SiglaEnUso(old(s.Db()), Normalize(sigla))
    ensures r.None? ==> s.Db() == old(s.Db())
    ensures r.Some? ==>
      && r.value !in old(s.materias)
      && s.Db() == old(s.Db()).(materias := old(s.materias)[r.value := Materia(Normalize(materia), Normalize(sigla))])
  {
    var fila := Materia(Normalize(materia), Normalize(sigla));
    var db := s.Db();
    if SiglaEnUso(db, fila.sigla) {
      return None;
    }
    var id := s.NuevoId();
    InsertarMateriaValid(db, id, fila, s.nextId);
    s.Guardar(db.(materias := db.materias[id := fila]));
    r := Some(id);
  }

  /** Inserting a course under a fresh key with a code nobody uses keeps the
      store valid. */
  lemma InsertarMateriaValid(db: Db, id: nat, fila: Materia, n: nat)
    requires Valid(db) && IdsBajo(db, n) && id < n && id !in db.materias
    requires !SiglaEnUso(db, fila.sigla)
    ensures Valid(db.(materias := db.materias[id := fila])) && IdsBajo(db.(materias := db.materias[id := fila]), n)
  {
  }

  function PorSigla(db: Db): nat -> string {
    (m: nat) => if m in db.materias then db.materias[m].sigla else ""
  }

  /** listar_materias: every course, ordered by code. */
  method ListarMaterias(db: Db) returns (r: seq<nat>)
    ensures IsListing(r, db.materias.Keys)
    ensures SortedBy(r, PorSigla(db), StrLe)
  {
    StrLeIsTotalOrder();
    r := SortBy(db.materias.Keys, PorSigla(db), StrLe);
  }

  /** Under the unique code, the listing is strictly increasing by code. */
  lemma ListadoSinEmpates(db: Db, r: seq<nat>)
    requires SiglasUnicas(db.materias)
    requires IsListing(r, db.materias.Keys) && SortedBy(r, PorSigla(db), StrLe)
    ensures forall i, j :: 0 <= i < j < |r| ==> db.materias[r[i]].sigla != db.materias[r[j]].sigla
  {
    forall i, j | 0 <= i < j < |r| ensures db.materias[r[i]].sigla != db.materias[r[j]].sigla {
      assert r[i] in r && r[j] in r;
    }
  }

  /** obtener_materia: the course with that key, or None. */
  function ObtenerMateria(db: Db, id: nat): (r: Option<Materia>)
    ensures r.Some? <==> id in db.materias
    ensures r.Some? ==> r.value == db.materias[id]
  {
    if id in db.materias then Some(db.materias[id]) else None
  }

  /** Some course other than `id` uses the code. */
  predicate OtraConSigla(db: Db, id: nat, sigla: string) {
    exists m :: m in db.materias && m != id && db.materias[m].sigla == sigla
  }

  /** The row actualizar_materia saves: each given text field stripped and
      upper-cased; the code, normalised once for the check and once more by the
      field loop, is the code normalised once. */
  function MateriaActualizada(m: Materia, materia: Option<string>, sigla: Option<string>): (r: Materia)
    ensures r.materia == if materia.Some? then Normalize(materia.value) else m.materia
    ensures r.sigla == if sigla.Some? then Normalize(sigla.value) else m.sigla
  {
    Materia(
      if materia.Some? then Normalize(materia.value) else m.materia,
      if sigla.Some? then NormalizeIdempotent(sigla.value); Normalize(Normalize(sigla.value)) else m.sigla)
  }

  /** actualizar_materia with the two fields the table has. It fails, changing
      nothing, on an unknown key, or when the normalised new code differs from
      the course's own and another course holds it. The source's `.exist()`,
      `calor`, `hassattr` and `printf` are read as `.exists()`, `valor`,
      `hasattr` and `print`. */
  method ActualizarMateria(s: Store, id: nat, materia: Option<string>, sigla: Option<string>) returns (ok: bool)
    requires s.Valid()
    modifies s
    ensures s.Valid()
    ensures ok <==>
      && id in old(s.materias)
      && !(sigla.Some? && Normalize(sigla.value) != old(s.materias)[id].sigla
           && OtraConSigla(old(s.Db()), id, Normalize(sigla.value)))
    ensures !ok ==> s.Db() == old(s.Db())
    ensures ok ==> s.Db() == old(s.Db()).(materias := old(s.materias)[id := MateriaActualizada(old(s.materias)[id], materia, sigla)])
  {
    if id !in s.materias {
      return false;
    }
    var actual := s.materias[id];
    if sigla.Some? {
      var nueva := Normalize(sigla.value);
      if nueva != actual.sigla && OtraConSigla(s.Db(), id, nueva) {
        return false;
      }
    }
    var db := s.Db();
    ActualizarMateriaValid(db, id, materia, sigla, s.nextId);
    s.Guardar(db.(materias := db.materias[id := MateriaActualizada(actual, materia, sigla)]));
    ok := true;
  }

  /** An update that passed the code check keeps the store valid. */
  lemma ActualizarMateriaValid(db: Db, id: nat, materia: Option<string>, sigla: Option<string>, n: nat)
    requires Valid(db) && IdsBajo(db, n) && id in db.materias
    requires sigla.Some? && Normalize(sigla.value) != db.materias[id].sigla ==> !OtraConSigla(db, id, Normalize(sigla.value))
    ensures var nuevo := db.(materias := db.materias[id := MateriaActualizada(db.materias[id], materia, sigla)]);
      Valid(nuevo) && IdsBajo(nuevo, n)
  {
    var fila := MateriaActualizada(db.materias[id], materia, sigla);
    assert forall b :: b in db.materias && b != id ==> db.materias[b].sigla != fila.sigla;
    ReemplazarMateria(db, id, fila, n);
  }

  // ---------------------------------------------------------------------------
  // eliminar_materia

  datatype ResultadoEliminacion =
    | Eliminada(sigla: string)
    | NoExiste
    | ConDependencias(paralelos: nat, laboratorios: nat, estudiantes: nat)

  /** The grades of the students in `es`. */
  function CalificacionesDeEstudiantes(cs: map<nat, Calificacion>, es: set<nat>): set<nat> {
    set c | c in cs && cs[c].idEstudiante in es
  }

  /** The grades on the labs in `ls`. */
  function CalificacionesDeLaboratorios(cs: map<nat, Calificacion>, ls: set<nat>): set<nat> {
    set c | c in cs && cs[c].idLaboratorio in ls
  }

  /** The forced delete of course `m` as the source writes it: the grades of
      the course's students, those students, the course's labs, its sections
      and the course itself. The import at line 164 is read as importing
      `Calificacion`; taken literally it raises ImportError, and nothing is
      deleted at all. */
  function CascadaComoEscrita(db: Db, m: nat): Db {
    var es := EstudiantesDeMateria(db, m);
    Db(db.materias - {m},
       db.paralelos - ParalelosDe(db, m),
       db.estudiantes - es,
       db.laboratorios - LaboratoriosDe(db, m),
       db.calificaciones - CalificacionesDeEstudiantes(db.calificaciones, es))
  }

  /** The forced delete that keeps every reference valid: as written, plus the
      grades that students of other courses hold on the deleted labs. */
  function CascadaMateria(db: Db, m: nat): Db {
    var es := EstudiantesDeMateria(db, m);
    Db(db.materias - {m},
       db.paralelos - ParalelosDe(db, m),
       db.estudiantes - es,
       db.laboratorios - LaboratoriosDe(db, m),
       db.calificaciones - CalificacionesDeEstudiantes(db.calificaciones, es)
                         - CalificacionesDeLaboratorios(db.calificaciones, LaboratoriosDe(db, m)))
  }

  /** As written, no grade is left on a deleted student. */
  lemma CascadaComoEscritaSinEstudiantesBorrados(db: Db, m: nat)
    requires Valid(db)
    ensures forall c :: c in CascadaComoEscrita(db, m).calificaciones ==>
      CascadaComoEscrita(db, m).calificaciones[c].idEstudiante in CascadaComoEscrita(db, m).estudiantes
  {
  }

  /** As written, the cascade can leave a grade on a deleted lab: student 3
      of course 1 is graded on lab 4 of course 0, and deleting course 0 keeps
      the grade while removing the lab. */
  lemma CascadaComoEscritaDejaHuerfanas()
    ensures var db := Db(
      map[0 := Materia("A", "X"), 1 := Materia("B", "Y")],
      map[2 := Paralelo("A", 1, "T")],
      map[3 := Estudiante("N", "C", 2, None)],
      map[4 := Laboratorio(1, "L", 0, None, 100.0)],
      map[5 := Calificacion(4, 3, Some(80.0), None)]);
      Valid(db) && !Valid(CascadaComoEscrita(db, 0))
  {
    var db := Db(
      map[0 := Materia("A", "X"), 1 := Materia("B", "Y")],
      map[2 := Paralelo("A", 1, "T")],
      map[3 := Estudiante("N", "C", 2, None)],
      map[4 := Laboratorio(1, "L", 0, None, 100.0)],
      map[5 := Calificacion(4, 3, Some(80.0), None)]);
    assert ParalelosDe(db, 0) == {};
    assert EstudiantesDeMateria(db, 0) == {};
    assert LaboratoriosDe(db, 0) == {4};
    assert SiglasUnicas(db.materias) && CiUnico(db.estudiantes) && CalificacionUnica(db.calificaciones);
    var r := CascadaComoEscrita(db, 0);
    assert 5 in r.calificaciones && 4 !in r.laboratorios;
  }

  /** The corrected cascade leaves no grade on a deleted lab or student. */
  lemma CascadaCalificacionesConReferencias(db: Db, m: nat)
    requires CalificacionesConReferencias(db.calificaciones, db.laboratorios, db.estudiantes)
    ensures var r := CascadaMateria(db, m);
      CalificacionesConReferencias(r.calificaciones, r.laboratorios, r.estudiantes)
  {
    var r := CascadaMateria(db, m);
    forall c | c in r.calificaciones
      ensures r.calificaciones[c].idLaboratorio in r.laboratorios && r.calificaciones[c].idEstudiante in r.estudiantes
    {
      assert c !in CalificacionesDeLaboratorios(db.calificaciones, LaboratoriosDe(db, m));
      assert c !in CalificacionesDeEstudiantes(db.calificaciones, EstudiantesDeMateria(db, m));
    }
  }

  /** The corrected cascade leaves no section, lab or student on a deleted
      course or section. */
  lemma CascadaFilasConReferencias(db: Db, m: nat)
    requires ParalelosConMateria(db.paralelos, db.materias)
    requires EstudiantesConParalelo(db.estudiantes, db.paralelos)
    requires LaboratoriosConMateria(db.laboratorios, db.materias)
    ensures var r := CascadaMateria(db, m);
      && ParalelosConMateria(r.paralelos, r.materias)
      && EstudiantesConParalelo(r.estudiantes, r.paralelos)
      && LaboratoriosConMateria(r.laboratorios, r.materias)
  {
    var r := CascadaMateria(db, m);
    forall e | e in r.estudiantes ensures r.estudiantes[e].idParalelo in r.paralelos {
      assert e !in EstudiantesDeMateria(db, m);
    }
  }

  /** The corrected cascade keeps every unique index and every reference, and
      removes the course. */
  lemma CascadaMateriaValid(db: Db, m: nat, n: nat)
    requires Valid(db) && IdsBajo(db, n)
    ensures Valid(CascadaMateria(db, m)) && IdsBajo(CascadaMateria(db, m), n)
    ensures m !in CascadaMateria(db, m).materias
  {
    CascadaCalificacionesConReferencias(db, m);
    CascadaFilasConReferencias(db, m);
    var r := CascadaMateria(db, m);
    assert r.materias.Keys <= db.materias.Keys && r.paralelos.Keys <= db.paralelos.Keys;
    assert r.estudiantes.Keys <= db.estudiantes.Keys && r.laboratorios.Keys <= db.laboratorios.Keys;
    assert r.calificaciones.Keys <= db.calificaciones.Keys;
  }

  /** When the course has no sections and no labs, the cascade removes only
      the course. */
  lemma CascadaSinDependencias(db: Db, m: nat)
    requires ParalelosDe(db, m) == {} && LaboratoriosDe(db, m) == {}
    ensures CascadaMateria(db, m) == db.(materias := db.materias - {m})
  {
    assert EstudiantesDeMateria(db, m) == {};
    assert CalificacionesDeEstudiantes(db.calificaciones, {}) == {};
    assert CalificacionesDeLaboratorios(db.calificaciones, {}) == {};
    assert db.paralelos - {} == db.paralelos;
    assert db.estudiantes - {} == db.estudiantes;
    assert db.laboratorios - {} == db.laboratorios;
    assert db.calificaciones - {} - {} == db.calificaciones;
  }

  /** Removes, student by student, the grades of the students in `es` (the
      inner loop of the source's forced delete). */
  method BorrarCalificacionesDe(cs: map<nat, Calificacion>, es: set<nat>) returns (r: map<nat, Calificacion>)
    ensures r == cs - CalificacionesDeEstudiantes(cs, es)
  {
    r := cs;
    var pendientes := es;
    while pendientes != {}
      invariant pendientes <= es
      invariant r == cs - CalificacionesDeEstudiantes(cs, es - pendientes)
      decreases pendientes
    {
      var e :| e in pendientes;
      assert es - (pendientes - {e}) == (es - pendientes) + {e};
      r := r - (set c | c in r && r[c].idEstudiante == e);
      pendientes := pendientes - {e};
    }
    assert es - pendientes == es;
  }

  /** eliminar_materia. Unknown key: NoExiste. Without `forzar`, a course with
      sections, labs or students is kept and the three counts are returned.
      Otherwise the course goes, and with `forzar` its dependants too, as
      CascadaMateria says. The source imports `calificacion` instead of
      `Calificacion` (line 164) and spells the result key `succes`; both are
      read as intended. */
  method EliminarMateria(s: Store, id: nat, forzar: bool) returns (r: ResultadoEliminacion)
    requires s.Valid()
    modifies s
    ensures s.Valid()
    ensures r == NoExiste <==> id !in old(s.materias)
    ensures r.ConDependencias? <==>
      && id in old(s.materias) && !forzar
      && (ContarParalelos(old(s.Db()), id) > 0 || ContarLaboratorios(old(s.Db()), id) > 0
          || |EstudiantesDeMateria(old(s.Db()), id)| > 0)
    ensures r.ConDependencias? ==> r == ConDependencias(ContarParalelos(old(s.Db()), id), ContarLaboratorios(old(s.Db()), id),
                               |EstudiantesDeMateria(old(s.Db()), id)|)
    ensures !r.Eliminada? ==> s.Db() == old(s.Db())
    ensures r.Eliminada? ==>
      && id in old(s.materias) && r.sigla == old(s.materias)[id].sigla
      && s.Db() == CascadaMateria(old(s.Db()), id)
  {
    if id !in s.materias {
      return NoExiste;
    }
    var db := s.Db();
    var numParalelos := ContarParalelos(db, id);
    var numLaboratorios := ContarLaboratorios(db, id);
    var numEstudiantes := ContarEstudiantesTotal(db, id);
    if !forzar && (numParalelos > 0 || numLaboratorios > 0 || numEstudiantes > 0) {
      return ConDependencias(numParalelos, numLaboratorios, numEstudiantes);
    }
    var sigla := s.materias[id].sigla;
    CascadaMateriaValid(db, id, s.nextId);
    var nuevo;
    if forzar {
      var cs := BorrarCalificacionesDeMateria(db, id);
      // Grades that students of other courses hold on the course's labs, which
      // the source leaves behind (see CascadaComoEscritaDejaHuerfanas).
      cs := cs - CalificacionesDeLaboratorios(db.calificaciones, LaboratoriosDe(db, id));
      var es := BorrarEstudiantesDeMateria(db, id);
      nuevo := Db(db.materias - {id}, db.paralelos - ParalelosDe(db, id), es, db.laboratorios - LaboratoriosDe(db, id), cs);
    } else {
      CascadaSinDependencias(db, id);
      nuevo := db.(materias := db.materias - {id});
    }
    assert nuevo == CascadaMateria(db, id);
    s.Guardar(nuevo);
    r := Eliminada(sigla);
  }

  /** The first loop of the forced delete: section by section, the grades of
      the section's students. */
  method BorrarCalificacionesDeMateria(db: Db, m: nat) returns (cs: map<nat, Calificacion>)
    ensures cs == db.calificaciones - CalificacionesDeEstudiantes(db.calificaciones, EstudiantesDeMateria(db, m))
  {
    cs := db.calificaciones;
    var pendientes := ParalelosDe(db, m);
    assert EstudiantesDeParalelos(db, {}) == {};
    while pendientes != {}
      invariant pendientes <= ParalelosDe(db, m)
      invariant cs == db.calificaciones - CalificacionesDeEstudiantes(db.calificaciones, EstudiantesDeParalelos(db, ParalelosDe(db, m) - pendientes))
      decreases pendientes
    {
      var p :| p in pendientes;
      assert ParalelosDe(db, m) - (pendientes - {p}) == (ParalelosDe(db, m) - pendientes) + {p};
      cs := BorrarCalificacionesDe(cs, EstudiantesDe(db, p));
      assert EstudiantesDeParalelos(db, (ParalelosDe(db, m) - pendientes) + {p}) == EstudiantesDeParalelos(db, ParalelosDe(db, m) - pendientes) + EstudiantesDe(db, p);
      pendientes := pendientes - {p};
    }
    assert EstudiantesDeParalelos(db, ParalelosDe(db, m) - pendientes) == EstudiantesDeMateria(db, m);
  }

  /** The second loop of the forced delete: section by section, its students. */
  method BorrarEstudiantesDeMateria(db: Db, m: nat) returns (es: map<nat, Estudiante>)
    ensures es == db.estudiantes - EstudiantesDeMateria(db, m)
  {
    es := db.estudiantes;
    var pendientes := ParalelosDe(db, m);
    assert EstudiantesDeParalelos(db, {}) == {};
    while pendientes != {}
      invariant pendientes <= ParalelosDe(db, m)
      invariant es == db.estudiantes - EstudiantesDeParalelos(db, ParalelosDe(db, m) - pendientes)
      decreases pendientes
    {
      var p :| p in pendientes;
      assert ParalelosDe(db, m) - (pendientes - {p}) == (ParalelosDe(db, m) - pendientes) + {p};
      es := es - (set e | e in es && es[e].idParalelo == p);
      pendientes := pendientes - {p};
    }
    assert EstudiantesDeParalelos(db, ParalelosDe(db, m) - pendientes) == EstudiantesDeMateria(db, m);
  }

  // ---------------------------------------------------------------------------
  // obtener_estadisticasgenerales

  datatype EstadisticasGenerales = EstadisticasGenerales(
    totalMaterias: nat, totalParalelos: nat, totalEstudiantes: nat, totalLaboratorios: nat,
    promedioParalelosPorMateria: real, promedioEstudiantesPorMateria: real)

  /** The sections, labs and students of the courses in `ms`. */
  function ParalelosDeMaterias(db: Db, ms: set<nat>): set<nat> {
    set p | p in db.paralelos && db.paralelos[p].idMateria in ms
  }

  function LaboratoriosDeMaterias(db: Db, ms: set<nat>): set<nat> {
    set l | l in db.laboratorios && db.laboratorios[l].idMateria in ms
  }

  function EstudiantesDeMaterias(db: Db, ms: set<nat>): set<nat> {
    EstudiantesDeParalelos(db, ParalelosDeMaterias(db, ms))
  }

  /** Adding one course not yet counted adds exactly its own sections. */
  lemma SumaParalelosDe(db: Db, ms: set<nat>, m: nat)
    requires m !in ms
    ensures |ParalelosDeMaterias(db, ms + {m})| == |ParalelosDeMaterias(db, ms)| + |ParalelosDe(db, m)|
  {
    assert ParalelosDeMaterias(db, ms + {m}) == ParalelosDeMaterias(db, ms) + ParalelosDe(db, m);
    assert ParalelosDeMaterias(db, ms) !! ParalelosDe(db, m);
  }

  /** Adding one course not yet counted adds exactly its own labs. */
  lemma SumaLaboratoriosDe(db: Db, ms: set<nat>, m: nat)
    requires m !in ms
    ensures |LaboratoriosDeMaterias(db, ms + {m})| == |LaboratoriosDeMaterias(db, ms)| + |LaboratoriosDe(db, m)|
  {
    assert LaboratoriosDeMaterias(db, ms + {m}) == LaboratoriosDeMaterias(db, ms) + LaboratoriosDe(db, m);
    assert LaboratoriosDeMaterias(db, ms) !! LaboratoriosDe(db, m);
  }

  /** Adding one course not yet counted adds exactly its own students. */
  lemma SumaEstudiantesDe(db: Db, ms: set<nat>, m: nat)
    requires m !in ms
    ensures |EstudiantesDeMaterias(db, ms + {m})| == |EstudiantesDeMaterias(db, ms)| + |EstudiantesDeMateria(db, m)|
  {
    assert ParalelosDeMaterias(db, ms + {m}) == ParalelosDeMaterias(db, ms) + ParalelosDe(db, m);
    assert EstudiantesDeMaterias(db, ms + {m}) == EstudiantesDeMaterias(db, ms) + EstudiantesDeMateria(db, m);
    assert EstudiantesDeMaterias(db, ms) !! EstudiantesDeMateria(db, m);
  }

  /** `sum(m.contar_paralelos() for m in materias)` */
  method SumarParalelos(db: Db) returns (total: nat)
    ensures total == |ParalelosDeMaterias(db, db.materias.Keys)|
  {
    total := 0;
    var pendientes := db.materias.Keys;
    while pendientes != {}
      invariant pendientes <= db.materias.Keys
      invariant total == |ParalelosDeMaterias(db, db.materias.Keys - pendientes)|
      decreases pendientes
    {
      var m :| m in pendientes;
      assert db.materias.Keys - (pendientes - {m}) == (db.materias.Keys - pendientes) + {m};
      SumaParalelosDe(db, db.materias.Keys - pendientes, m);
      total := total + ContarParalelos(db, m);
      pendientes := pendientes - {m};
    }
    assert db.materias.Keys - pendientes == db.materias.Keys;
  }

  /** `sum(m.contar_laboratorios() for m in materias)` */
  method SumarLaboratorios(db: Db) returns (total: nat)
    ensures total == |LaboratoriosDeMaterias(db, db.materias.Keys)|
  {
    total := 0;
    var pendientes := db.materias.Keys;
    while pendientes != {}
      invariant pendientes <= db.materias.Keys
      invariant total == |LaboratoriosDeMaterias(db, db.materias.Keys - pendientes)|
      decreases pendientes
    {
      var m :| m in pendientes;
      assert db.materias.Keys - (pendientes - {m}) == (db.materias.Keys - pendientes) + {m};
      SumaLaboratoriosDe(db, db.materias.Keys - pendientes, m);
      total := total + ContarLaboratorios(db, m);
      pendientes := pendientes - {m};
    }
    assert db.materias.Keys - pendientes == db.materias.Keys;
  }

  /** `sum(m.contar_estudiantes_total() for m in materias)` */
  method SumarEstudiantes(db: Db) returns (total: nat)
    ensures total == |EstudiantesDeMaterias(db, db.materias.Keys)|
  {
    total := 0;
    var pendientes := db.materias.Keys;
    while pendientes != {}
      invariant pendientes <= db.materias.Keys
      invariant total == |EstudiantesDeMaterias(db, db.materias.Keys - pendientes)|
      decreases pendientes
    {
      var m :| m in pendientes;
      assert db.materias.Keys - (pendientes - {m}) == (db.materias.Keys - pendientes) + {m};
      SumaEstudiantesDe(db, db.materias.Keys - pendientes, m);
      var n := ContarEstudiantesTotal(db, m);
      total := total + n;
      pendientes := pendientes - {m};
    }
    assert db.materias.Keys - pendientes == db.materias.Keys;
  }

  /** The per-course average of a total, and 0 without courses. */
  function PorMateria(total: nat, materias: nat): (r: real)
    ensures materias == 0 ==> r == 0.0
    ensures materias > 0 ==> r * (materias as real) == total as real
  {
    if materias > 0 then (total as real) / (materias as real) else 0.0
  }

  /** obtener_estadisticasgenerales: the per-course counts summed over all
      courses, and their averages per course. */
  method ObtenerEstadisticasGenerales(db: Db) returns (r: EstadisticasGenerales)
    ensures r.totalMaterias == |db.materias|
    ensures r.totalParalelos == |ParalelosDeMaterias(db, db.materias.Keys)|
    ensures r.totalLaboratorios == |LaboratoriosDeMaterias(db, db.materias.Keys)|
    ensures r.totalEstudiantes == |EstudiantesDeMaterias(db, db.materias.Keys)|
    ensures r.promedioParalelosPorMateria == PorMateria(r.totalParalelos, r.totalMaterias)
    ensures r.promedioEstudiantesPorMateria == PorMateria(r.totalEstudiantes, r.totalMaterias)
  {
    var n := |db.materias|;
    var totalParalelos := SumarParalelos(db);
    var totalEstudiantes := SumarEstudiantes(db);
    var totalLaboratorios := SumarLaboratorios(db);
    r := EstadisticasGenerales(n, totalParalelos, totalEstudiantes, totalLaboratorios,
      PorMateria(totalParalelos, n), PorMateria(totalEstudiantes, n));
  }

  /** With every reference valid, the summed totals are the sizes of the tables. */
  lemma TotalesSonTablas(db: Db)
    requires Valid(db)
    ensures |ParalelosDeMaterias(db, db.materias.Keys)| == |db.paralelos|
    ensures |LaboratoriosDeMaterias(db, db.materias.Keys)| == |db.laboratorios|
    ensures |EstudiantesDeMaterias(db, db.materias.Keys)| == |db.estudiantes|
  {
    assert ParalelosDeMaterias(db, db.materias.Keys) == db.paralelos.Keys;
    assert LaboratoriosDeMaterias(db, db.materias.Keys) == db.laboratorios.Keys;
    assert EstudiantesDeMaterias(db, db.materias.Keys) == db.estudiantes.Keys;
  }

  // ---------------------------------------------------------------------------
  // buscar_materias

  /** The courses whose name or code contains the term, ignoring ASCII case. */
  function Coincidencias(db: Db, termino: string): set<nat> {
    set m | m in db.materias
      && (ContainsIgnoringCase(db.materias[m].materia, termino) || ContainsIgnoringCase(db.materias[m].sigla, termino))
  }

  /** buscar_materias: the matching courses, ordered by code. */
  method BuscarMaterias(db: Db, termino: string) returns (r: seq<nat>)
    ensures IsListing(r, Coincidencias(db, termino))
    ensures SortedBy(r, PorSigla(db), StrLe)
  {
    StrLeIsTotalOrder();
    r := SortBy(Coincidencias(db, termino), PorSigla(db), StrLe);
  }

  /** The empty term matches every course. */
  lemma BuscarVacioEsListar(db: Db)
    ensures Coincidencias(db, "") == db.materias.Keys
  {
    forall m | m in db.materias ensures ContainsIgnoringCase(db.materias[m].sigla, "") {
      assert OccursAt(FoldAscii(db.materias[m].sigla), FoldAscii(""), 0);
    }
  }
}
