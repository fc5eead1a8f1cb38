/** The five tables of the laboratory-grades store, their rows, and the
    integrity rules the database enforces: unique indexes and foreign keys.
    A row is identified by its integer primary key, the key of its map. */
module Schema {
  import opened Util

  /** A course: `materias` table (models/materia.py). */
  datatype Materia = Materia(materia: string, sigla: string)

  /** A section of a course, labelled A, B, ...: `paralelos` table. */
  datatype Paralelo = Paralelo(paralelo: string, idMateria: nat, docenteTeoria: string)

  /** A student enrolled in one section, with an optional lab group. */
  datatype Estudiante = Estudiante(nombre: string, ci: string, idParalelo: nat, grupo: Option<string>)

  /** A lab assignment of a course, numbered within the course. */
  datatype Laboratorio = Laboratorio(
    numero: int, titulo: string, idMateria: nat, descripcion: Option<string>, puntajeMaximo: real)

  /** The grade of one student in one lab; the score may still be empty. */
  datatype Calificacion = Calificacion(
    idLaboratorio: nat, idEstudiante: nat, calificacion: Option<real>, observaciones: Option<string>)

  datatype Db = Db(
    materias: map<nat, Materia>,
    paralelos: map<nat, Paralelo>,
    estudiantes: map<nat, Estudiante>,
    laboratorios: map<nat, Laboratorio>,
    calificaciones: map<nat, Calificacion>)

  const Vacia := Db(map[], map[], map[], map[], map[])

  // ---------------------------------------------------------------------------
  // Unique indexes

  /** `sigla` is declared unique (models/materia.py:18). */
  ghost predicate SiglasUnicas(ms: map<nat, Materia>) {
    forall a, b :: a in ms && b in ms && ms[a].sigla == ms[b].sigla ==> a == b
  }

  /** Index (id_materia, paralelo) is unique (models/paralelo.py:22-24). */
  ghost predicate ParalelosUnicos(ps: map<nat, Paralelo>) {
    forall a, b :: a in ps && b in ps && ps[a].idMateria == ps[b].idMateria && ps[a].paralelo == ps[b].paralelo ==> a == b
  }

  /** `ci` is unique over the whole table (models/estudiante.py:16); this
      implies the (id_paralelo, ci) index of models/estudiante.py:23-25. */
  ghost predicate CiUnico(es: map<nat, Estudiante>) {
    forall a, b :: a in es && b in es && es[a].ci == es[b].ci ==> a == b
  }

  /** Index (id_materia, numero) is unique (models/laboratorio.py:25-27). */
  ghost predicate NumerosUnicos(ls: map<nat, Laboratorio>) {
    forall a, b :: a in ls && b in ls && ls[a].idMateria == ls[b].idMateria && ls[a].numero == ls[b].numero ==> a == b
  }

  /** Index (id_estudiante, id_laboratorio) is unique (models/calificacion.py:27-30). */
  ghost predicate CalificacionUnica(cs: map<nat, Calificacion>) {
    forall a, b :: a in cs && b in cs && cs[a].idEstudiante == cs[b].idEstudiante && cs[a].idLaboratorio == cs[b].idLaboratorio ==> a == b
  }

  // ---------------------------------------------------------------------------
  // Foreign keys

  ghost predicate ParalelosConMateria(ps: map<nat, Paralelo>, ms: map<nat, Materia>) {
    forall p :: p in ps ==> ps[p].idMateria in ms
  }

  ghost predicate EstudiantesConParalelo(es: map<nat, Estudiante>, ps: map<nat, Paralelo>) {
    forall e :: e in es ==> es[e].idParalelo in ps
  }

  ghost predicate LaboratoriosConMateria(ls: map<nat, Laboratorio>, ms: map<nat, Materia>) {
    forall l :: l in ls ==> ls[l].idMateria in ms
  }

  ghost predicate CalificacionesConReferencias(cs: map<nat, Calificacion>, ls: map<nat, Laboratorio>, es: map<nat, Estudiante>) {
    forall c :: c in cs ==> cs[c].idLaboratorio in ls && cs[c].idEstudiante in es
  }

  /** Every unique index holds and every foreign key points at a row. */
  ghost predicate Valid(db: Db) {
    && SiglasUnicas(db.materias)
    && ParalelosUnicos(db.paralelos) && ParalelosConMateria(db.paralelos, db.materias)
    && CiUnico(db.estudiantes) && EstudiantesConParalelo(db.estudiantes, db.paralelos)
    && NumerosUnicos(db.laboratorios) && LaboratoriosConMateria(db.laboratorios, db.materias)
    && CalificacionUnica(db.calificaciones)
    && CalificacionesConReferencias(db.calificaciones, db.laboratorios, db.estudiantes)
  }

  /** Every primary key in use is below `n`: `n` is a fresh key. */
  ghost predicate IdsBajo(db: Db, n: nat) {
    && (forall k :: k in db.materias ==> k < n)
    && (forall k :: k in db.paralelos ==> k < n)
    && (forall k :: k in db.estudiantes ==> k < n)
    && (forall k :: k in db.laboratorios ==> k < n)
    && (forall k :: k in db.calificaciones ==> k < n)
  }

  lemma VaciaValid()
    ensures Valid(Vacia) && IdsBajo(Vacia, 0)
  {
  }

  /** Every row of `a` is the row under the same key in `b`. */
  ghost predicate Submapa<V>(a: map<nat, V>, b: map<nat, V>) {
    forall k :: k in a ==> k in b && a[k] == b[k]
  }

  /** Dropping rows keeps every unique index; the store stays valid when the
      foreign keys of what is left still point at rows. */
  lemma SinFilasValid(db: Db, r: Db, n: nat)
    requires Valid(db) && IdsBajo(db, n)
    requires Submapa(r.materias, db.materias) && Submapa(r.paralelos, db.paralelos)
    requires Submapa(r.estudiantes, db.estudiantes) && Submapa(r.laboratorios, db.laboratorios)
    requires Submapa(r.calificaciones, db.calificaciones)
    requires ParalelosConMateria(r.paralelos, r.materias) && EstudiantesConParalelo(r.estudiantes, r.paralelos)
    requires LaboratoriosConMateria(r.laboratorios, r.materias)
    requires CalificacionesConReferencias(r.calificaciones, r.laboratorios, r.estudiantes)
    ensures Valid(r) && IdsBajo(r, n)
  {
  }

  /** Replacing one course's row by a row whose code no other course holds
      keeps the store valid. */
  lemma ReemplazarMateria(db: Db, id: nat, fila: Materia, n: nat)
    requires Valid(db) && IdsBajo(db, n) && id in db.materias
    requires forall b :: b in db.materias && b != id ==> db.materias[b].sigla != fila.sigla
    ensures Valid(db.(materias := db.materias[id := fila])) && IdsBajo(db.(materias := db.materias[id := fila]), n)
  {
    assert SiglasUnicas(db.materias[id := fila]);
  }

  /** Replacing the grade table keeps the store valid when the new table keeps
      the (student, lab) index, its references and the key bound. */
  lemma CambiarCalificaciones(db: Db, cs: map<nat, Calificacion>, n: nat)
    requires Valid(db) && IdsBajo(db, n)
    requires CalificacionUnica(cs) && CalificacionesConReferencias(cs, db.laboratorios, db.estudiantes)
    requires forall k :: k in cs ==> k < n
    ensures Valid(db.(calificaciones := cs)) && IdsBajo(db.(calificaciones := cs), n)
  {
  }

  /** The same for the lab table, which the grades refer to. */
  lemma CambiarLaboratorios(db: Db, ls: map<nat, Laboratorio>, n: nat)
    requires Valid(db) && IdsBajo(db, n)
    requires NumerosUnicos(ls) && LaboratoriosConMateria(ls, db.materias)
    requires CalificacionesConReferencias(db.calificaciones, ls, db.estudiantes)
    requires forall k :: k in ls ==> k < n
    ensures Valid(db.(laboratorios := ls)) && IdsBajo(db.(laboratorios := ls), n)
  {
  }

  /** The same for the student table, which the grades refer to. */
  lemma CambiarEstudiantes(db: Db, es: map<nat, Estudiante>, n: nat)
    requires Valid(db) && IdsBajo(db, n)
    requires CiUnico(es) && EstudiantesConParalelo(es, db.paralelos)
    requires CalificacionesConReferencias(db.calificaciones, db.laboratorios, es)
    requires forall k :: k in es ==> k < n
    ensures Valid(db.(estudiantes := es)) && IdsBajo(db.(estudiantes := es), n)
  {
  }

  /** Replacing one student's row by a row of an existing section whose CI no
      other student holds keeps the store valid. */
  lemma ReemplazarEstudiante(db: Db, id: nat, fila: Estudiante, n: nat)
    requires Valid(db) && IdsBajo(db, n) && id in db.estudiantes && fila.idParalelo in db.paralelos
    requires forall b :: b in db.estudiantes && b != id ==> db.estudiantes[b].ci != fila.ci
    ensures Valid(db.(estudiantes := db.estudiantes[id := fila])) && IdsBajo(db.(estudiantes := db.estudiantes[id := fila]), n)
  {
    var es := db.estudiantes[id := fila];
    assert CiUnico(es);
    assert EstudiantesConParalelo(es, db.paralelos);
    assert es.Keys == db.estudiantes.Keys;
    assert CalificacionesConReferencias(db.calificaciones, db.laboratorios, es);
    CambiarEstudiantes(db, es, n);
  }

  // ---------------------------------------------------------------------------
  // Reverse references (peewee backrefs)

  /** `materia.paralelos` */
  function ParalelosDe(db: Db, m: nat): set<nat> {
    set p | p in db.paralelos && db.paralelos[p].idMateria == m
  }

  /** `materia.laboratorios` */
  function LaboratoriosDe(db: Db, m: nat): set<nat> {
    set l | l in db.laboratorios && db.laboratorios[l].idMateria == m
  }

  /** `paralelo.estudiantes` */
  function EstudiantesDe(db: Db, p: nat): set<nat> {
    set e | e in db.estudiantes && db.estudiantes[e].idParalelo == p
  }

  /** The students of all sections of course `m`. */
  function EstudiantesDeMateria(db: Db, m: nat): set<nat> {
    set e | e in db.estudiantes && db.estudiantes[e].idParalelo in ParalelosDe(db, m)
  }

  /** `estudiante.calificaciones` */
  function CalificacionesDeEstudiante(db: Db, e: nat): set<nat> {
    set c | c in db.calificaciones && db.calificaciones[c].idEstudiante == e
  }

  /** `laboratorio.calificaciones` */
  function CalificacionesDeLaboratorio(db: Db, l: nat): set<nat> {
    set c | c in db.calificaciones && db.calificaciones[c].idLaboratorio == l
  }

  /** The grades of the students of section `p` (a join on the student). */
  function CalificacionesDeParalelo(db: Db, p: nat): set<nat> {
    set c | c in db.calificaciones && db.calificaciones[c].idEstudiante in EstudiantesDe(db, p)
  }

  /** The grades of student `e` in lab `l`. */
  function CalificacionesDe(db: Db, e: nat, l: nat): set<nat> {
    set c | c in db.calificaciones && db.calificaciones[c].idEstudiante == e && db.calificaciones[c].idLaboratorio == l
  }

  /** Under the (student, lab) index a student has at most one grade per lab. */
  lemma CalificacionesDeAlMasUna(db: Db, e: nat, l: nat, c: nat)
    requires CalificacionUnica(db.calificaciones)
    requires c in CalificacionesDe(db, e, l)
    ensures CalificacionesDe(db, e, l) == {c}
  {
  }
}
