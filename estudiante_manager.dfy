/** Student operations (managers/estudiante_manager.py): register, list, look
    up, update and delete students, split a section into lab groups and
    summarise a section. */
module EstudianteManager {
  import opened Util
  import opened Text
  import opened Schema
  import opened Database
  import opened CalificacionModel
  import opened EstudianteModel
  import opened ParaleloModel

  // ---------------------------------------------------------------------------
  // registrar_estudiante

  /** Some student other than `id` holds CI `ci`; with `id` a key no student
      has, any student. */
  predicate OtroConCi(db: Db, id: nat, ci: string) {
    exists e :: e in db.estudiantes && e != id && db.estudiantes[e].ci == ci
  }

  /** A student of an existing section under a fresh key, with a CI nobody
      holds, keeps the store valid. */
  lemma InsertarEstudianteValid(db: Db, id: nat, fila: Estudiante, n: nat)
    requires Valid(db) && IdsBajo(db, n) && id < n && id !in db.estudiantes
    requires fila.idParalelo in db.paralelos && !OtroConCi(db, id, fila.ci)
    ensures Valid(db.(estudiantes := db.estudiantes[id := fila])) && IdsBajo(db.(estudiantes := db.estudiantes[id := fila]), n)
  {
  }

  /** registrar_estudiante: name and CI stored normalised, the group
      normalised or NULL when empty. An unknown section, or a CI already
      registered (the unique column), gives None and changes nothing. */
  method RegistrarEstudiante(s: Store, nombre: string, ci: string, p: nat, grupo: Option<string> := None)
    returns (r: Option<nat>)
    requires s.Valid()
    modifies s
    ensures s.Valid()
    ensures r.None? <==> p !in old(s.paralelos) || OtroConCi(old(s.Db()), old(s.nextId), Normalize(ci))
    ensures r.None? ==> s.Db() == old(s.Db())
    ensures r.Some? ==>
      && r.value !in old(s.estudiantes)
      && s.Db() == old(s.Db()).(estudiantes := old(s.estudiantes)[r.value :=
           Estudiante(Normalize(nombre), Normalize(ci), p, NormalizeOrNull(grupo))])
  {
    if p !in s.paralelos {
      return None;
    }
    var db := s.Db();
    var fila := Estudiante(Normalize(nombre), Normalize(ci), p, NormalizeOrNull(grupo));
    if OtroConCi(db, s.nextId, fila.ci) {
      return None;
    }
    var id := s.NuevoId();
    InsertarEstudianteValid(db, id, fila, s.nextId);
    s.Guardar(db.(estudiantes := db.estudiantes[id := fila]));
    r := Some(id);
  }

  /** A registered student is found again by the CI as stored. */
  lemma RegistrarYBuscar(db: Db, id: nat, fila: Estudiante)
    requires CiUnico(db.estudiantes) && id !in db.estudiantes && !OtroConCi(db, id, fila.ci)
    ensures ObtenerPorCi(db.(estudiantes := db.estudiantes[id := fila]), fila.ci) == Some(id)
  {
    ObtenerPorCiUnico(db.(estudiantes := db.estudiantes[id := fila]), fila.ci, id);
  }

  // ---------------------------------------------------------------------------
  // listar_por_paralelo, obtener_estudiante, buscar_por_ci

  function GrupoYNombre(db: Db): nat -> (Option<string>, string) {
    (e: nat) => if e in db.estudiantes then (db.estudiantes[e].grupo, db.estudiantes[e].nombre) else (None, "")
  }

  function CiYNombre(db: Db): nat -> (string, string) {
    (e: nat) => if e in db.estudiantes then (db.estudiantes[e].ci, db.estudiantes[e].nombre) else ("", "")
  }

  /** ORDER BY grupo, nombre: NULL groups first, as SQLite sorts them. */
  function PorGrupoYNombre(): ((Option<string>, string), (Option<string>, string)) -> bool {
    (x: (Option<string>, string), y: (Option<string>, string)) => LexLe(OptStrLe, StrLe, x, y)
  }

  /** ORDER BY ci, nombre */
  function PorCiYNombre(): ((string, string), (string, string)) -> bool {
    (x: (string, string), y: (string, string)) => LexLe(StrLe, StrLe, x, y)
  }

  /** listar_por_paralelo: the section's students ordered by (group, name)
      for "grupo", by (CI, name) for "ci" and by name otherwise; [] for an
      unknown section. */
  method ListarPorParalelo(db: Db, p: nat, ordenarPor: string := "nombre") returns (r: seq<nat>)
    ensures p !in db.paralelos ==> r == []
    ensures p in db.paralelos ==> IsListing(r, EstudiantesDe(db, p))
    ensures ordenarPor == "grupo" ==> SortedBy(r, GrupoYNombre(db), PorGrupoYNombre())
    ensures ordenarPor == "ci" ==> SortedBy(r, CiYNombre(db), PorCiYNombre())
    ensures ordenarPor != "grupo" && ordenarPor != "ci" ==> SortedBy(r, NombreDe(db), StrLe)
  {
    if p !in db.paralelos {
      return [];
    }
    StrLeIsTotalOrder();
    if ordenarPor == "grupo" {
      OptStrLeIsTotalOrder();
      LexIsTotalPreorder(OptStrLe, StrLe);
      r := SortBy(EstudiantesDe(db, p), GrupoYNombre(db), PorGrupoYNombre());
    } else if ordenarPor == "ci" {
      LexIsTotalPreorder(StrLe, StrLe);
      r := SortBy(EstudiantesDe(db, p), CiYNombre(db), PorCiYNombre());
    } else {
      r := SortBy(EstudiantesDe(db, p), NombreDe(db), StrLe);
    }
  }

  /** obtener_estudiante */
  function ObtenerEstudiante(db: Db, id: nat): (r: Option<Estudiante>)
    ensures r.Some? <==> id in db.estudiantes
    ensures r.Some? ==> r.value == db.estudiantes[id]
  {
    if id in db.estudiantes then Some(db.estudiantes[id]) else None
  }

  /** buscar_por_ci: the student holding that CI, or None. The source calls
      `Estudiante.buscar_por_ci`, which the model does not define; it is read
      as the evidently intended `Estudiante.obtener_por_ci`. */
  function BuscarPorCi(db: Db, ci: string): (r: Option<nat>)
    ensures r.Some? ==> r.value in db.estudiantes && db.estudiantes[r.value].ci == ci
    ensures r.None? <==> forall e :: e in db.estudiantes ==> db.estudiantes[e].ci != ci
  {
    ObtenerPorCi(db, ci)
  }

  // ---------------------------------------------------------------------------
  // actualizar_estudiante, actualizar_grupo

  /** The fields a caller may pass. Texts are stripped, not upper-cased, and
      an empty one is stored as NULL; a group may also be set to NULL. */
  datatype CamposEstudiante = CamposEstudiante(
    nombre: Option<string>, ci: Option<string>, idParalelo: Option<nat>, grupo: Option<Option<string>>)

  /** The update is saved: the student exists; a CI that differs from the
      student's own is not held by another student; a new section exists;
      and neither the name nor the stripped CI is empty (saved as NULL into
      a NOT NULL column). */
  predicate ActualizacionAdmitida(db: Db, id: nat, c: CamposEstudiante) {
    && id in db.estudiantes
    && !(c.ci.Some? && Strip(c.ci.value) != db.estudiantes[id].ci && OtroConCi(db, id, Strip(c.ci.value)))
    && !(c.idParalelo.Some? && c.idParalelo.value !in db.paralelos)
    && !(c.nombre.Some? && c.nombre.value == "")
    && !(c.ci.Some? && Strip(c.ci.value) == "")
  }

  /** The row saved: every given field replaced, every other one kept. */
  function EstudianteActualizado(est: Estudiante, c: CamposEstudiante): Estudiante {
    Estudiante(
      if c.nombre.Some? then Strip(c.nombre.value) else est.nombre,
      if c.ci.Some? then Strip(c.ci.value) else est.ci,
      if c.idParalelo.Some? then c.idParalelo.value else est.idParalelo,
      if c.grupo.Some? then StripOrNull(c.grupo.value) else est.grupo)
  }

  /** An admitted update keeps the store valid. */
  lemma ActualizarEstudianteValid(db: Db, id: nat, c: CamposEstudiante, n: nat)
    requires Valid(db) && IdsBajo(db, n) && ActualizacionAdmitida(db, id, c)
    ensures var nuevo := db.(estudiantes := db.estudiantes[id := EstudianteActualizado(db.estudiantes[id], c)]);
      Valid(nuevo) && IdsBajo(nuevo, n)
  {
    var nuevo := EstudianteActualizado(db.estudiantes[id], c);
    assert forall b :: b in db.estudiantes && b != id ==> db.estudiantes[b].ci != nuevo.ci;
    ReemplazarEstudiante(db, id, nuevo, n);
  }

  /** actualizar_estudiante, with the section change the code evidently
      intends (see ActualizaComoEscrito for the code as written). It fails,
      changing nothing, unless the update is admitted. The source calls
      `.exist()`; it is read as the evidently intended `.exists()`. */
  method ActualizarEstudiante(s: Store, id: nat, campos: CamposEstudiante) returns (ok: bool)
    requires s.Valid()
    modifies s
    ensures s.Valid()
    ensures ok <==> ActualizacionAdmitida(old(s.Db()), id, campos)
    ensures !ok ==> s.Db() == old(s.Db())
    ensures ok ==>
      s.Db() == old(s.Db()).(estudiantes := old(s.estudiantes)[id := EstudianteActualizado(old(s.estudiantes)[id], campos)])
  {
    if id !in s.estudiantes {
      return false;
    }
    var db := s.Db();
    var actual := db.estudiantes[id];
    if campos.ci.Some? {
      var nuevoCi := Strip(campos.ci.value);
      if nuevoCi != actual.ci && OtroConCi(db, id, nuevoCi) {
        return false;
      }
    }
    if campos.idParalelo.Some? && campos.idParalelo.value !in db.paralelos {
      return false;
    }
    if (campos.nombre.Some? && campos.nombre.value == "") || (campos.ci.Some? && Strip(campos.ci.value) == "") {
      return false;
    }
    ActualizarEstudianteValid(db, id, campos, s.nextId);
    s.Guardar(db.(estudiantes := db.estudiantes[id := EstudianteActualizado(actual, campos)]));
    ok := true;
  }

  /** The update as written: the new section, once looked up, is passed
      through `valor.strip()` like the texts, which a section row does not
      have, so every update that names a section ends in the generic error
      branch and returns false. The CI check's `.exist()` is read as
      `.exists()`, as in the corrected update. */
  predicate ActualizaComoEscrito(db: Db, id: nat, c: CamposEstudiante) {
    ActualizacionAdmitida(db, id, c) && c.idParalelo.None?
  }

  /** A store with two sections of one course and a student in the first:
      moving the student is admitted, yet the code as written refuses it. */
  lemma ComoEscritoNoCambiaDeParalelo()
    ensures var db := Db(
      map[0 := Materia("PROGRAMACION", "SIS1110")],
      map[1 := Paralelo("A", 0, "DOCENTE"), 2 := Paralelo("B", 0, "DOCENTE")],
      map[3 := Estudiante("ANA", "123", 1, None)],
      map[], map[]);
      var c := CamposEstudiante(None, None, Some(2), None);
      && Valid(db) && ActualizacionAdmitida(db, 3, c) && !ActualizaComoEscrito(db, 3, c)
  {
  }

  /** The intended effect of naming a section: the student leaves the old
      section and joins the new one, every other section keeping its students. */
  lemma CambioDeParalelo(db: Db, id: nat, c: CamposEstudiante, q: nat)
    requires ActualizacionAdmitida(db, id, c) && c.idParalelo.Some?
    ensures var nuevo := db.(estudiantes := db.estudiantes[id := EstudianteActualizado(db.estudiantes[id], c)]);
      && id in EstudiantesDe(nuevo, c.idParalelo.value)
      && (q != c.idParalelo.value ==> EstudiantesDe(nuevo, q) == EstudiantesDe(db, q) - {id})
  {
  }

  /** actualizar_grupo: actualizar_estudiante with only the group. */
  method ActualizarGrupo(s: Store, id: nat, nuevoGrupo: Option<string>) returns (ok: bool)
    requires s.Valid()
    modifies s
    ensures s.Valid()
    ensures ok <==> id in old(s.estudiantes)
    ensures !ok ==> s.Db() == old(s.Db())
    ensures ok ==> s.Db() == old(s.Db()).(estudiantes := old(s.estudiantes)[id :=
      old(s.estudiantes)[id].(grupo := StripOrNull(nuevoGrupo))])
  {
    ok := ActualizarEstudiante(s, id, CamposEstudiante(None, None, None, Some(nuevoGrupo)));
  }

  // ---------------------------------------------------------------------------
  // eliminar_estudiante

  datatype ResultadoEliminacionEst =
    | Eliminado
    | NoExiste
    | ConCalificaciones(calificaciones: nat)

  /** The store without student `e` and without the student's grades. */
  function SinEstudianteNiNotas(db: Db, e: nat): (r: Db)
    ensures e !in r.estudiantes && CalificacionesDeEstudiante(r, e) == {}
    ensures forall k :: k in r.estudiantes <==> k in db.estudiantes && k != e
    ensures forall c :: c in r.calificaciones <==> c in db.calificaciones && db.calificaciones[c].idEstudiante != e
    ensures r.materias == db.materias && r.paralelos == db.paralelos && r.laboratorios == db.laboratorios
  {
    db.(estudiantes := db.estudiantes - {e}, calificaciones := db.calificaciones - CalificacionesDeEstudiante(db, e))
  }

  lemma SinEstudianteNiNotasValid(db: Db, e: nat, n: nat)
    requires Valid(db) && IdsBajo(db, n)
    ensures Valid(SinEstudianteNiNotas(db, e)) && IdsBajo(SinEstudianteNiNotas(db, e), n)
  {
    var r := SinEstudianteNiNotas(db, e);
    assert Submapa(r.calificaciones, db.calificaciones);
    assert Submapa(r.estudiantes, db.estudiantes);
    assert CalificacionesConReferencias(r.calificaciones, r.laboratorios, r.estudiantes);
    SinFilasValid(db, r, n);
  }

  /** eliminar_estudiante: an unknown key gives NoExiste; a student with
      grades is kept, with their count, unless `forzar`; otherwise the grades
      are deleted and then the student. The source imports `calificaciones`
      and then uses `Calificacion`; it is read as the evidently intended import. */
  method EliminarEstudiante(s: Store, id: nat, forzar: bool) returns (r: ResultadoEliminacionEst)
    requires s.Valid()
    modifies s
    ensures s.Valid()
    ensures r == NoExiste <==> id !in old(s.estudiantes)
    ensures r.ConCalificaciones? <==>
      id in old(s.estudiantes) && !forzar && ContarCalificaciones(old(s.Db()), id) > 0
    ensures r.ConCalificaciones? ==> r.calificaciones == ContarCalificaciones(old(s.Db()), id)
    ensures !r.Eliminado? ==> s.Db() == old(s.Db())
    ensures r.Eliminado? ==> s.Db() == SinEstudianteNiNotas(old(s.Db()), id)
  {
    if id !in s.estudiantes {
      return NoExiste;
    }
    var db := s.Db();
    var n := ContarCalificaciones(db, id);
    if !forzar && n > 0 {
      return ConCalificaciones(n);
    }
    SinEstudianteNiNotasValid(db, id, s.nextId);
    s.Guardar(SinEstudianteNiNotas(db, id));
    r := Eliminado;
  }

  // ---------------------------------------------------------------------------
  // organizar_grupos_automatico

  /** The group of the student at position `i` of the name order, `k` to a
      group: `(i // k) + 1`. */
  function NumeroGrupo(i: int, k: int): int
    requires k != 0
  {
    FloorDiv(i, k) + 1
  }

  function NombreGrupo(i: int, k: int): string
    requires k != 0
  {
    "Grupo " + IntToString(NumeroGrupo(i, k))
  }

  /** The highest group number handed to `n` > 0 students: `(n + k - 1) // k`
      for positive `k`; with a negative `k` every number is at most 1. */
  function GruposPara(n: nat, k: int): int
    requires k != 0
  {
    if k > 0 then FloorDiv(n + k - 1, k) else 1
  }

  /** The students of `orden` given their groups in turn. */
  function Agrupar(es: map<nat, Estudiante>, orden: seq<nat>, k: int): (r: map<nat, Estudiante>)
    requires k != 0
    ensures r.Keys == es.Keys
    ensures forall e :: e in r ==> r[e] == es[e].(grupo := r[e].grupo)
  {
    if orden == [] then es
    else
      var previo := Agrupar(es, orden[..|orden| - 1], k);
      var e := orden[|orden| - 1];
      if e in previo then previo[e := previo[e].(grupo := Some(NombreGrupo(|orden| - 1, k)))] else previo
  }

  /** Each listed student of `es` ends with the group of its position; every
      other student is left as it was. */
  lemma {:induction false} AgruparSpec(es: map<nat, Estudiante>, orden: seq<nat>, k: int)
    requires k != 0 && Distinct(orden)
    ensures forall i :: 0 <= i < |orden| && orden[i] in es ==>
      Agrupar(es, orden, k)[orden[i]].grupo == Some(NombreGrupo(i, k))
    ensures forall e :: e in es && e !in orden ==> Agrupar(es, orden, k)[e] == es[e]
    decreases |orden|
  {
    if orden != [] {
      var pre := orden[..|orden| - 1];
      var ultimo := orden[|orden| - 1];
      assert forall i :: 0 <= i < |pre| ==> pre[i] == orden[i] && pre[i] != ultimo;
      assert Distinct(pre);
      AgruparSpec(es, pre, k);
      var previo := Agrupar(es, pre, k);
      var r := Agrupar(es, orden, k);
      assert forall x :: x in previo && x != ultimo ==> r[x] == previo[x];
      assert forall x :: x in es && x !in orden ==> x !in pre && x != ultimo;
    }
  }

  /** Rewriting only groups keeps the store valid. */
  lemma CambiarGruposValid(db: Db, es: map<nat, Estudiante>, n: nat)
    requires Valid(db) && IdsBajo(db, n)
    requires es.Keys == db.estudiantes.Keys
    requires forall e :: e in es ==> es[e] == db.estudiantes[e].(grupo := es[e].grupo)
    ensures Valid(db.(estudiantes := es)) && IdsBajo(db.(estudiantes := es), n)
  {
    assert forall e :: e in es ==> es[e].ci == db.estudiantes[e].ci && es[e].idParalelo == db.estudiantes[e].idParalelo;
    CambiarEstudiantes(db, es, n);
  }

  /** The group count the loop keeps: the highest group number handed out so
      far, and 0 before the first student. */
  lemma GruposCreadosPaso(i: nat, k: int, creados: int)
    requires k != 0 && creados == (if i == 0 then 0 else GruposPara(i, k))
    ensures (if NumeroGrupo(i, k) > creados then NumeroGrupo(i, k) else creados) == GruposPara(i + 1, k)
  {
    if k > 0 {
      FloorDivStep(i, k);
      assert GruposPara(i + 1, k) == NumeroGrupo(i, k);
      if i > 0 {
        FloorDivMonotone(i - 1, i, k);
        FloorDivStep(i - 1, k);
      }
    } else {
      if i > 0 {
        assert FloorDiv(i, k) <= 0;
      }
    }
  }

  /** With `k` > 0 students of one group are fewer than `k` positions apart,
      so no group has more than `k` students; groups follow the name order
      and run from 1 to GruposPara. */
  lemma GruposDeTamanoK(n: nat, k: int, i: nat, j: nat)
    requires k > 0 && i <= j < n
    ensures 1 <= NumeroGrupo(i, k) <= NumeroGrupo(j, k) <= GruposPara(n, k)
    ensures NumeroGrupo(i, k) == NumeroGrupo(j, k) ==> j - i < k
  {
    FloorDivMonotone(i, j, k);
    FloorDivMonotone(0, i, k);
    FloorDivBy(0, k, 0);
    FloorDivMonotone(j, n - 1, k);
    FloorDivStep(n - 1, k);
  }

  /** The loop of organizar_grupos_automatico over the name order: each
      student gets its group, and the highest group number is kept. */
  method AsignarGrupos(es: map<nat, Estudiante>, orden: seq<nat>, k: int)
    returns (nuevo: map<nat, Estudiante>, creados: int)
    requires k != 0 && |orden| > 0
    requires forall i :: 0 <= i < |orden| ==> orden[i] in es
    ensures nuevo == Agrupar(es, orden, k)
    ensures creados == GruposPara(|orden|, k)
  {
    nuevo, creados := es, 0;
    for i := 0 to |orden|
      invariant nuevo == Agrupar(es, orden[..i], k)
      invariant creados == (if i == 0 then 0 else GruposPara(i, k))
    {
      assert orden[..i + 1][..i] == orden[..i];
      var numero := FloorDiv(i, k) + 1;
      nuevo := nuevo[orden[i] := nuevo[orden[i]].(grupo := Some("Grupo " + IntToString(numero)))];
      GruposCreadosPaso(i, k, creados);
      if numero > creados {
        creados := numero;
      }
    }
    assert orden[..|orden|] == orden;
  }

  datatype ResultadoOrganizacion =
    | Organizado(gruposCreados: int, totalEstudiantes: nat)
    | SinEstudiantes
    | DivisionPorCero

  /** organizar_grupos_automatico: the section's students by name, the one at
      position i put in group "Grupo <i // k + 1>". Without students, or with
      `k` = 0 (a division by zero), nothing changes. The source reads
      `len(estrudiantes)`; it is read as the evidently intended `estudiantes`.
      `orden` is the name order used. */
  method OrganizarGruposAutomatico(s: Store, p: nat, estudiantesPorGrupo: int := 5)
    returns (r: ResultadoOrganizacion, orden: seq<nat>)
    requires s.Valid()
    modifies s
    ensures s.Valid()
    ensures r.SinEstudiantes? <==> p !in old(s.paralelos) || EstudiantesDe(old(s.Db()), p) == {}
    ensures r.DivisionPorCero? <==> !r.SinEstudiantes? && estudiantesPorGrupo == 0
    ensures !r.Organizado? ==> s.Db() == old(s.Db())
    ensures r.Organizado? ==>
      && IsListing(orden, EstudiantesDe(old(s.Db()), p))
      && SortedBy(orden, NombreDe(old(s.Db())), StrLe)
      && r.totalEstudiantes == |orden|
      && r.gruposCreados == GruposPara(|orden|, estudiantesPorGrupo)
      && s.Db() == old(s.Db()).(estudiantes := Agrupar(old(s.estudiantes), orden, estudiantesPorGrupo))
  {
    var db := s.Db();
    orden := ListarPorParalelo(db, p);
    if |orden| == 0 {
      if p in db.paralelos {
        assert forall e :: e in EstudiantesDe(db, p) ==> e in orden;
      }
      return SinEstudiantes, orden;
    }
    assert orden[0] in EstudiantesDe(db, p);
    var k := estudiantesPorGrupo;
    if k == 0 {
      return DivisionPorCero, orden;
    }
    forall i | 0 <= i < |orden| ensures orden[i] in db.estudiantes {
      assert orden[i] in EstudiantesDe(db, p);
    }
    var es, creados := AsignarGrupos(db.estudiantes, orden, k);
    CambiarGruposValid(db, es, s.nextId);
    s.Guardar(db.(estudiantes := es));
    r := Organizado(creados, |orden|);
  }

  // ---------------------------------------------------------------------------
  // obtener_estadisticas_paralelo

  datatype ResumenParalelo = ResumenParalelo(
    totalEstudiantes: nat, totalGrupos: nat, estudiantesSinGrupo: nat,
    promedioGeneral: real, gruposLista: seq<string>)

  /** The truthy groups of the students listed in `xs`. */
  function GruposEn(db: Db, xs: seq<nat>): set<string> {
    if xs == [] then {}
    else
      var e := xs[|xs| - 1];
      GruposEn(db, xs[..|xs| - 1]) + (if e in db.estudiantes && TieneGrupo(db.estudiantes[e].grupo) then {db.estudiantes[e].grupo.value} else {})
  }

  /** Some student listed in `xs` is in group `g`. */
  predicate EnGrupo(db: Db, xs: seq<nat>, j: int, g: string) {
    0 <= j < |xs| && xs[j] in db.estudiantes && TieneGrupo(db.estudiantes[xs[j]].grupo) && db.estudiantes[xs[j]].grupo.value == g
  }

  /** GruposEn collects exactly the groups of the listed students. */
  lemma {:induction false} GruposEnSpec(db: Db, xs: seq<nat>)
    ensures forall g :: g in GruposEn(db, xs) <==> exists j :: EnGrupo(db, xs, j, g)
    decreases |xs|
  {
    if xs != [] {
      var pre := xs[..|xs| - 1];
      var e := xs[|xs| - 1];
      GruposEnSpec(db, pre);
      assert forall j :: 0 <= j < |pre| ==> pre[j] == xs[j];
      assert forall j, g :: EnGrupo(db, pre, j, g) ==> EnGrupo(db, xs, j, g);
      assert forall j, g :: EnGrupo(db, xs, j, g) && j < |pre| ==> EnGrupo(db, pre, j, g);
      if e in db.estudiantes && TieneGrupo(db.estudiantes[e].grupo) {
        assert EnGrupo(db, xs, |pre|, db.estudiantes[e].grupo.value);
      }
      assert forall g :: EnGrupo(db, xs, |pre|, g) ==> g in GruposEn(db, xs);
    }
  }

  function SinGrupoEn(db: Db): nat -> bool {
    (e: nat) => !(e in db.estudiantes && TieneGrupo(db.estudiantes[e].grupo))
  }

  /** The students of the section without a (truthy) group. */
  function SinGrupo(db: Db, p: nat): set<nat> {
    set e | e in EstudiantesDe(db, p) && !TieneGrupo(db.estudiantes[e].grupo)
  }

  /** The per-student averages, in the order of `xs`. */
  function Promedios(db: Db, xs: seq<nat>): (r: seq<real>)
    ensures |r| == |xs|
  {
    if xs == [] then [] else Promedios(db, xs[..|xs| - 1]) + [PromedioCalificaciones(db, xs[|xs| - 1])]
  }

  /** From the loop's view over a listing of the section to the section itself. */
  lemma ResumenFinal(db: Db, p: nat, orden: seq<nat>)
    requires IsListing(orden, EstudiantesDe(db, p))
    ensures GruposEn(db, orden) == GruposDe(db, p)
    ensures CountIf(orden, SinGrupoEn(db)) == |SinGrupo(db, p)|
  {
    GruposEnSpec(db, orden);
    forall g | g in GruposDe(db, p) ensures g in GruposEn(db, orden) {
      var e :| e in EstudiantesDe(db, p) && TieneGrupo(db.estudiantes[e].grupo) && db.estudiantes[e].grupo.value == g;
      assert e in orden;
      var j :| 0 <= j < |orden| && orden[j] == e;
      assert EnGrupo(db, orden, j, g);
    }
    forall g | g in GruposEn(db, orden) ensures g in GruposDe(db, p) {
      var j :| EnGrupo(db, orden, j, g);
      assert orden[j] in orden;
    }
    CountIfSet(orden, SinGrupoEn(db));
    assert (set x | x in orden && SinGrupoEn(db)(x)) == SinGrupo(db, p);
  }

  /** The two accumulations, unfolded by one student. */
  lemma GruposEnPaso(db: Db, orden: seq<nat>, i: nat)
    requires i < |orden|
    ensures var e := orden[i];
      GruposEn(db, orden[..i + 1]) ==
        GruposEn(db, orden[..i]) + (if e in db.estudiantes && TieneGrupo(db.estudiantes[e].grupo) then {db.estudiantes[e].grupo.value} else {})
  {
    assert orden[..i + 1][..i] == orden[..i];
  }

  lemma SinGrupoEnPaso(db: Db, orden: seq<nat>, i: nat)
    requires i < |orden|
    ensures CountIf(orden[..i + 1], SinGrupoEn(db)) == CountIf(orden[..i], SinGrupoEn(db)) + (if SinGrupoEn(db)(orden[i]) then 1 else 0)
  {
    assert orden[..i + 1][..i] == orden[..i];
  }

  /** The loop of obtener_estadisticas_paralelo over a listing of the section:
      the set of groups and the number of students without one. */
  method RecorrerParalelo(db: Db, orden: seq<nat>) returns (grupos: set<string>, sinGrupo: nat)
    ensures grupos == GruposEn(db, orden)
    ensures sinGrupo == CountIf(orden, SinGrupoEn(db))
  {
    grupos, sinGrupo := {}, 0;
    for i := 0 to |orden|
      invariant grupos == GruposEn(db, orden[..i])
      invariant sinGrupo == CountIf(orden[..i], SinGrupoEn(db))
    {
      GruposEnPaso(db, orden, i);
      SinGrupoEnPaso(db, orden, i);
      var e := orden[i];
      if e in db.estudiantes && TieneGrupo(db.estudiantes[e].grupo) {
        grupos := grupos + {db.estudiantes[e].grupo.value};
      } else {
        sinGrupo := sinGrupo + 1;
      }
    }
    assert orden[..|orden|] == orden;
  }

  /** obtener_estadisticas_paralelo: None for an unknown section; otherwise
      the number of students, of groups and of students without a group, the
      mean of the students' averages (0 without students) and the groups in
      ascending order. The students are visited in key order, the order in
      which SQLite returns an unordered query. */
  method ObtenerEstadisticasParalelo(db: Db, p: nat) returns (r: Option<ResumenParalelo>)
    ensures r.None? <==> p !in db.paralelos
    ensures r.Some? ==>
      && r.value.totalEstudiantes == |EstudiantesDe(db, p)|
      && r.value.totalGrupos == |GruposDe(db, p)|
      && r.value.estudiantesSinGrupo == |SinGrupo(db, p)|
      && r.value.promedioGeneral == Mean(Promedios(db, SortedKeys(EstudiantesDe(db, p))))
      && IsListing(r.value.gruposLista, GruposDe(db, p))
      && (forall i, j :: 0 <= i < j < |r.value.gruposLista| ==>
            StrLe(r.value.gruposLista[i], r.value.gruposLista[j]) && r.value.gruposLista[i] != r.value.gruposLista[j])
  {
    if p !in db.paralelos {
      return None;
    }
    var orden := SortedKeys(EstudiantesDe(db, p));
    var grupos, sinGrupo := RecorrerParalelo(db, orden);
    ResumenFinal(db, p, orden);
    ListingLength(orden, EstudiantesDe(db, p));
    var promedios := Promedios(db, orden);
    var promedio := if |promedios| > 0 then Sum(promedios) / (|promedios| as real) else 0.0;
    StrLeIsTotalOrder();
    var lista := SortBy(grupos, (g: string) => g, StrLe);
    r := Some(ResumenParalelo(|orden|, |grupos|, sinGrupo, promedio, lista));
  }

  /** The students of the section with a (truthy) group. */
  function ConGrupo(db: Db, p: nat): set<nat> {
    set e | e in EstudiantesDe(db, p) && TieneGrupo(db.estudiantes[e].grupo)
  }

  /** Every student is counted once, with a group or without. */
  lemma SinGrupoMasConGrupo(db: Db, p: nat)
    ensures |SinGrupo(db, p)| + |ConGrupo(db, p)| == |EstudiantesDe(db, p)|
  {
    assert SinGrupo(db, p) + ConGrupo(db, p) == EstudiantesDe(db, p);
    assert SinGrupo(db, p) !! ConGrupo(db, p);
  }

  /** With every student's average in [lo, hi] the section's mean of averages
      is in [lo, hi], or 0 without students. */
  lemma PromedioGeneralEnRango(db: Db, xs: seq<nat>, lo: real, hi: real)
    requires forall e :: e in xs ==> lo <= PromedioCalificaciones(db, e) <= hi
    ensures Mean(Promedios(db, xs)) == 0.0 || lo <= Mean(Promedios(db, xs)) <= hi
  {
    if |xs| > 0 {
      PromediosEn(db, xs);
      MeanWithin(Promedios(db, xs), lo, hi);
    }
  }

  lemma {:induction false} PromediosEn(db: Db, xs: seq<nat>)
    ensures forall i :: 0 <= i < |xs| ==> Promedios(db, xs)[i] == PromedioCalificaciones(db, xs[i])
    decreases |xs|
  {
    if xs != [] {
      var pre := xs[..|xs| - 1];
      PromediosEn(db, pre);
      assert forall i :: 0 <= i < |pre| ==> pre[i] == xs[i];
    }
  }
}
