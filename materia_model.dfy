/** Courses (models/materia.py): counts of sections, labs and students, the
    lookup by code and the summary record. The two lab helpers of that file
    are in LaboratorioModel. */
module MateriaModel {
  import opened Util
  import opened Text
  import opened Schema

  /** contar_paralelos */
  function ContarParalelos(db: Db, m: nat): nat {
    |ParalelosDe(db, m)|
  }

  /** contar_laboratorios */
  function ContarLaboratorios(db: Db, m: nat): nat {
    |LaboratoriosDe(db, m)|
  }

  /** The students of the sections in `ps`. */
  function EstudiantesDeParalelos(db: Db, ps: set<nat>): set<nat> {
    set e | e in db.estudiantes && db.estudiantes[e].idParalelo in ps
  }

  /** contar_estudiantes_total: the sum, over the course's sections, of each
      section's enrolment, which is the number of students in the course since
      a student belongs to exactly one section. */
  method ContarEstudiantesTotal(db: Db, m: nat) returns (total: nat)
    ensures total == |EstudiantesDeMateria(db, m)|
  {
    total := 0;
    var pendientes := ParalelosDe(db, m);
    while pendientes != {}
      invariant pendientes <= ParalelosDe(db, m)
      invariant total == |EstudiantesDeParalelos(db, ParalelosDe(db, m) - pendientes)|
      decreases pendientes
    {
      var p :| p in pendientes;
      assert ParalelosDe(db, m) - (pendientes - {p}) == (ParalelosDe(db, m) - pendientes) + {p};
      SumaParalelo(db, ParalelosDe(db, m) - pendientes, p);
      total := total + |EstudiantesDe(db, p)|;
      pendientes := pendientes - {p};
    }
    assert EstudiantesDeParalelos(db, ParalelosDe(db, m) - pendientes) == EstudiantesDeMateria(db, m);
  }

  /** Adding one section not yet counted adds exactly its own students. */
  lemma SumaParalelo(db: Db, ps: set<nat>, p: nat)
    requires p !in ps
    ensures |EstudiantesDeParalelos(db, ps + {p})| == |EstudiantesDeParalelos(db, ps)| + |EstudiantesDe(db, p)|
  {
    assert EstudiantesDeParalelos(db, ps + {p}) == EstudiantesDeParalelos(db, ps) + EstudiantesDe(db, p);
    assert EstudiantesDeParalelos(db, ps) !! EstudiantesDe(db, p);
  }

  /** obtener_por_sigla: the course whose code is the upper-cased argument, or None. */
  function ObtenerPorSigla(db: Db, sigla: string): (r: Option<nat>)
    ensures r.Some? ==> r.value in db.materias && db.materias[r.value].sigla == Upper(sigla)
    ensures r.None? <==> forall m :: m in db.materias ==> db.materias[m].sigla != Upper(sigla)
  {
    var s := set m | m in db.materias && db.materias[m].sigla == Upper(sigla);
    assert forall m :: m in db.materias && db.materias[m].sigla == Upper(sigla) ==> m in s;
    Least(s)
  }

  /** Under the unique code the lookup finds the one course holding it,
      whatever the case it is asked in. */
  lemma ObtenerPorSiglaUnica(db: Db, sigla: string, m: nat)
    requires SiglasUnicas(db.materias)
    requires m in db.materias && db.materias[m].sigla == Upper(sigla)
    ensures ObtenerPorSigla(db, sigla) == Some(m)
    ensures ObtenerPorSigla(db, Upper(sigla)) == Some(m)
  {
    UpperIdempotent(sigla);
  }

  datatype EstadisticasMateria = EstadisticasMateria(
    sigla: string, materia: string, paralelos: nat, laboratorios: nat, estudiantes: nat)

  /** estadisticas_completas. The source calls `contar_parelelos`, read as the
      evidently intended `contar_paralelos`. */
  method EstadisticasCompletas(db: Db, m: nat) returns (r: EstadisticasMateria)
    requires m in db.materias
    ensures r.sigla == db.materias[m].sigla && r.materia == db.materias[m].materia
    ensures r.paralelos == |ParalelosDe(db, m)|
    ensures r.laboratorios == |LaboratoriosDe(db, m)|
    ensures r.estudiantes == |EstudiantesDeMateria(db, m)|
  {
    var estudiantes := ContarEstudiantesTotal(db, m);
    r := EstadisticasMateria(db.materias[m].sigla, db.materias[m].materia,
      ContarParalelos(db, m), ContarLaboratorios(db, m), estudiantes);
  }
}
