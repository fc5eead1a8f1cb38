/** Lab operations (managers/laboratorio_manager.py): create, list, look up,
    update and delete the lab assignments of a course. */
module LaboratorioManager {
  import opened Util
  import opened Text
  import opened Schema
  import opened Database
  import opened LaboratorioModel
  import opened CalificacionModel

  // ---------------------------------------------------------------------------
  // crear_laboratorio

  /** A new lab of an existing course under a fresh key, numbered above every
      lab the course has, keeps the store valid. */
  lemma InsertarLaboratorioValid(db: Db, id: nat, fila: Laboratorio, n: nat)
    requires Valid(db) && IdsBajo(db, n) && id < n && id !in db.laboratorios
    requires fila.idMateria in db.materias
    requires forall l :: l in LaboratoriosDe(db, fila.idMateria) ==> db.laboratorios[l].numero < fila.numero
    ensures Valid(db.(laboratorios := db.laboratorios[id := fila])) && IdsBajo(db.(laboratorios := db.laboratorios[id := fila]), n)
  {
    assert forall b :: b in db.laboratorios && db.laboratorios[b].idMateria == fila.idMateria ==>
      b in LaboratoriosDe(db, fila.idMateria);
  }

  /** crear_laboratorio: the lab takes the course's next number, its title
      normalised and its description normalised or NULL when empty; the
      maximum score defaults to 100. An unknown course gives None and changes
      nothing. */
  method CrearLaboratorio(s: Store, m: nat, titulo: string, descripcion: Option<string> := None,
                          puntajeMaximo: real := PuntajeMaximoPorDefecto)
    returns (r: Option<nat>)
    requires s.Valid()
    modifies s
    ensures s.Valid()
    ensures r.None? <==> m !in old(s.materias)
    ensures r.None? ==> s.Db() == old(s.Db())
    ensures r.Some? ==>
      && r.value !in old(s.laboratorios)
      && s.Db() == old(s.Db()).(laboratorios := old(s.laboratorios)[r.value :=
           Laboratorio(SiguienteNumero(old(s.Db()), m), Normalize(titulo), m, NormalizeOrNull(descripcion), puntajeMaximo)])
  {
    if m !in s.materias {
      return None;
    }
    var db := s.Db();
    var fila := Laboratorio(SiguienteNumero(db, m), Normalize(titulo), m, NormalizeOrNull(descripcion), puntajeMaximo);
    var id := s.NuevoId();
    InsertarLaboratorioValid(db, id, fila, s.nextId);
    s.Guardar(db.(laboratorios := db.laboratorios[id := fila]));
    r := Some(id);
  }

  /** The numbers crear_laboratorio hands out to one course are all different:
      the new lab's number is above every number the course already has. */
  lemma SiguienteNumeroNuevo(db: Db, m: nat, id: nat, fila: Laboratorio)
    requires id !in db.laboratorios && fila.idMateria == m && fila.numero == SiguienteNumero(db, m)
    ensures forall l :: l in LaboratoriosDe(db, m) ==> db.laboratorios[l].numero != fila.numero
    ensures SiguienteNumero(db.(laboratorios := db.laboratorios[id := fila]), m) == fila.numero + 1
  {
    var nuevo := db.(laboratorios := db.laboratorios[id := fila]);
    assert id in LaboratoriosDe(nuevo, m);
    var k := SiguienteNumero(nuevo, m);
    assert fila.numero < k;
    assert forall l :: l in LaboratoriosDe(nuevo, m) && l != id ==> l in LaboratoriosDe(db, m);
  }

  // ---------------------------------------------------------------------------
  // listar_laboratorios_por_materia, obtener_laboratorio

  /** listar_laboratorios_por_materia: the course's labs by number, or [] for
      an unknown course. */
  method ListarLaboratoriosPorMateria(db: Db, m: nat) returns (r: seq<nat>)
    ensures m !in db.materias ==> r == []
    ensures m in db.materias ==> IsListing(r, LaboratoriosDe(db, m))
    ensures SortedBy(r, PorNumero(db), IntLe)
  {
    if m !in db.materias {
      return [];
    }
    r := ObtenerPorMateria(db, m);
  }

  /** obtener_laboratorio */
  function ObtenerLaboratorio(db: Db, id: nat): (r: Option<Laboratorio>)
    ensures r.Some? <==> id in db.laboratorios
    ensures r.Some? ==> r.value == db.laboratorios[id]
  {
    if id in db.laboratorios then Some(db.laboratorios[id]) else None
  }

  // ---------------------------------------------------------------------------
  // actualizar_laboratorio

  /** The fields a caller may pass: a number and a score are stored as given;
      a title or a description is normalised, or NULL when empty, and a
      description may also be set to NULL outright. */
  datatype CamposLaboratorio = CamposLaboratorio(
    numero: Option<int>, titulo: Option<string>, descripcion: Option<Option<string>>, puntajeMaximo: Option<real>)

  /** Some lab of course `m` other than `id` has number `n`. */
  predicate OtroConNumero(db: Db, id: nat, m: nat, n: int) {
    exists l :: l in db.laboratorios && l != id && db.laboratorios[l].idMateria == m && db.laboratorios[l].numero == n
  }

  /** The row saved: every given field replaced, every other one kept. The
      title of an accepted update is never empty. */
  function LaboratorioActualizado(lab: Laboratorio, c: CamposLaboratorio): Laboratorio {
    Laboratorio(
      if c.numero.Some? then c.numero.value else lab.numero,
      if c.titulo.Some? then Normalize(c.titulo.value) else lab.titulo,
      lab.idMateria,
      if c.descripcion.Some? then NormalizeOrNull(c.descripcion.value) else lab.descripcion,
      if c.puntajeMaximo.Some? then c.puntajeMaximo.value else lab.puntajeMaximo)
  }

  /** The update is saved: the lab exists, a changed number is free in its
      course, and no title is given as empty text (which would be saved as
      NULL into a NOT NULL column). */
  predicate ActualizacionAdmitida(db: Db, id: nat, c: CamposLaboratorio) {
    && id in db.laboratorios
    && !(c.numero.Some? && c.numero.value != db.laboratorios[id].numero
         && OtroConNumero(db, id, db.laboratorios[id].idMateria, c.numero.value))
    && !(c.titulo.Some? && c.titulo.value == "")
  }

  /** An admitted update keeps the store valid. */
  lemma ActualizarLaboratorioValid(db: Db, id: nat, c: CamposLaboratorio, n: nat)
    requires Valid(db) && IdsBajo(db, n) && ActualizacionAdmitida(db, id, c)
    ensures var nuevo := db.(laboratorios := db.laboratorios[id := LaboratorioActualizado(db.laboratorios[id], c)]);
      Valid(nuevo) && IdsBajo(nuevo, n)
  {
    var fila := LaboratorioActualizado(db.laboratorios[id], c);
    assert forall b :: b in db.laboratorios && b != id && db.laboratorios[b].idMateria == fila.idMateria ==>
      db.laboratorios[b].numero != fila.numero;
    NumerosUnicosTrasReemplazo(db.laboratorios, id, fila);
  }

  /** Replacing one lab by a row of the same course whose number no other lab
      of the course has keeps the (course, number) index. */
  lemma NumerosUnicosTrasReemplazo(ls: map<nat, Laboratorio>, id: nat, fila: Laboratorio)
    requires NumerosUnicos(ls) && id in ls && fila.idMateria == ls[id].idMateria
    requires forall b :: b in ls && b != id && ls[b].idMateria == fila.idMateria ==> ls[b].numero != fila.numero
    ensures NumerosUnicos(ls[id := fila])
  {
  }

  /** actualizar_laboratorio. It fails, changing nothing, on an unknown key, a
      number taken by another lab of the course, or an empty title. The source
      iterates `campo.items()`; it is read as the evidently intended
      `campos.items()`. */
  method ActualizarLaboratorio(s: Store, id: nat, campos: CamposLaboratorio) returns (ok: bool)
    requires s.Valid()
    modifies s
    ensures s.Valid()
    ensures ok <==> ActualizacionAdmitida(old(s.Db()), id, campos)
    ensures !ok ==> s.Db() == old(s.Db())
    ensures ok ==>
      s.Db() == old(s.Db()).(laboratorios := old(s.laboratorios)[id := LaboratorioActualizado(old(s.laboratorios)[id], campos)])
  {
    if id !in s.laboratorios {
      return false;
    }
    var db := s.Db();
    var actual := db.laboratorios[id];
    if campos.numero.Some? && campos.numero.value != actual.numero
       && OtroConNumero(db, id, actual.idMateria, campos.numero.value) {
      return false;
    }
    if campos.titulo.Some? && campos.titulo.value == "" {
      return false;
    }
    ActualizarLaboratorioValid(db, id, campos, s.nextId);
    s.Guardar(db.(laboratorios := db.laboratorios[id := LaboratorioActualizado(actual, campos)]));
    ok := true;
  }

  /** An update without fields leaves the lab as it is. */
  lemma ActualizarSinCampos(db: Db, id: nat)
    requires Valid(db) && id in db.laboratorios
    ensures ActualizacionAdmitida(db, id, CamposLaboratorio(None, None, None, None))
    ensures LaboratorioActualizado(db.laboratorios[id], CamposLaboratorio(None, None, None, None)) == db.laboratorios[id]
  {
  }

  // ---------------------------------------------------------------------------
  // eliminar_laboratorio

  datatype ResultadoEliminacionLab =
    | Eliminado
    | NoExiste
    | ConCalificaciones(calificaciones: nat)

  /** The store without lab `l` and without the grades given in it. */
  function SinLaboratorio(db: Db, l: nat): (r: Db)
    ensures l !in r.laboratorios && CalificacionesDeLaboratorio(r, l) == {}
    ensures forall k :: k in r.laboratorios <==> k in db.laboratorios && k != l
    ensures forall c :: c in r.calificaciones <==> c in db.calificaciones && db.calificaciones[c].idLaboratorio != l
    ensures r.materias == db.materias && r.paralelos == db.paralelos && r.estudiantes == db.estudiantes
  {
    db.(laboratorios := db.laboratorios - {l}, calificaciones := db.calificaciones - CalificacionesDeLaboratorio(db, l))
  }

  /** Deleting a lab together with its grades keeps the store valid. */
  lemma SinLaboratorioValid(db: Db, l: nat, n: nat)
    requires Valid(db) && IdsBajo(db, n)
    ensures Valid(SinLaboratorio(db, l)) && IdsBajo(SinLaboratorio(db, l), n)
  {
    var r := SinLaboratorio(db, l);
    assert Submapa(r.calificaciones, db.calificaciones);
    assert Submapa(r.laboratorios, db.laboratorios);
    assert CalificacionesConReferencias(r.calificaciones, r.laboratorios, r.estudiantes);
    SinFilasValid(db, r, n);
  }

  /** Without grades in the lab nothing but the lab itself goes. */
  lemma SinLaboratorioSinCalificaciones(db: Db, l: nat)
    requires ContarCalificaciones(db, l) == 0
    ensures SinLaboratorio(db, l).calificaciones == db.calificaciones
  {
    assert CalificacionesDeLaboratorio(db, l) == {};
    assert db.calificaciones - {} == db.calificaciones;
  }

  /** eliminar_laboratorio as written, taken literally: success flag and the
      store afterwards. Whatever the arguments, nothing is deleted and the
      call reports failure:
      - an unknown key raises DoesNotExist (lines 180-183);
      - a lab with grades and no `forzar` is refused (lines 154-159);
      - a forced call on a lab with grades raises ImportError at line 163
        (models/calificacion.py defines no `calificaciones`), before any
        grade is deleted;
      - every other call reaches `str(laboratorio)` (line 171), whose
        `__str__` names `sef` (models/laboratorio.py:31), so NameError comes
        before `delete_instance`.
      Both errors reach the generic handler (lines 184-188). */
  function EliminarLaboratorioComoEscrito(db: Db, id: nat, forzar: bool): (bool, Db) {
    (false, db)
  }

  /** As written, no call deletes a lab: every call the intended operation
      would honour (an existing lab, forced or without grades) leaves the
      store as it was, where the intended delete removes the lab and, when
      forced, its grades. */
  lemma ComoEscritoNoEliminaLaboratorio(db: Db, id: nat, forzar: bool)
    requires id in db.laboratorios && (forzar || ContarCalificaciones(db, id) == 0)
    ensures var (ok, r) := EliminarLaboratorioComoEscrito(db, id, forzar);
      && !ok && r == db && id in r.laboratorios
      && id !in SinLaboratorio(db, id).laboratorios
      && (ContarCalificaciones(db, id) > 0 ==> r.calificaciones != SinLaboratorio(db, id).calificaciones)
  {
    if ContarCalificaciones(db, id) > 0 {
      var c :| c in CalificacionesDeLaboratorio(db, id);
      assert c !in SinLaboratorio(db, id).calificaciones;
    }
  }

  /** eliminar_laboratorio: an unknown key gives NoExiste; a lab with grades
      is kept, with their count, unless `forzar`; otherwise its grades are
      deleted and then the lab. The source imports `calificaciones` from
      models.calificacion and then uses `Calificacion`, read as intended.
      As written, an ImportError or the NameError from `str(laboratorio)`
      comes before any delete (see EliminarLaboratorioComoEscrito); this is
      the intended operation. */
  method EliminarLaboratorio(s: Store, id: nat, forzar: bool) returns (r: ResultadoEliminacionLab)
    requires s.Valid()
    modifies s
    ensures s.Valid()
    ensures r == NoExiste <==> id !in old(s.laboratorios)
    ensures r.ConCalificaciones? <==>
      id in old(s.laboratorios) && !forzar && ContarCalificaciones(old(s.Db()), id) > 0
    ensures r.ConCalificaciones? ==> r.calificaciones == ContarCalificaciones(old(s.Db()), id)
    ensures !r.Eliminado? ==> s.Db() == old(s.Db())
    ensures r.Eliminado? ==> s.Db() == SinLaboratorio(old(s.Db()), id)
  {
    if id !in s.laboratorios {
      return NoExiste;
    }
    var db := s.Db();
    var n := ContarCalificaciones(db, id);
    if !forzar && n > 0 {
      return ConCalificaciones(n);
    }
    SinLaboratorioValid(db, id, s.nextId);
    s.Guardar(SinLaboratorio(db, id));
    r := Eliminado;
  }
}
