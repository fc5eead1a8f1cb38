/** Grade operations (managers/calificacion_manager.py): register, list, look
    up, update and delete grades, and grade a whole lab in one batch. */
module CalificacionManager {
  import opened Util
  import opened Text
  import opened Schema
  import opened Database
  import opened CalificacionModel
  import opened EstudianteModel

  // ---------------------------------------------------------------------------
  // obtener_calificacion_especifica

  /** obtener_calificacion_especifica: the grade of student `e` in lab `l`, or
      None. The source calls `Calificaciones.get`; it is read as the evidently
      intended `Calificacion.get`. */
  function ObtenerCalificacionEspecifica(db: Db, l: nat, e: nat): (r: Option<nat>)
    ensures r.Some? ==>
      && r.value in db.calificaciones
      && db.calificaciones[r.value].idLaboratorio == l && db.calificaciones[r.value].idEstudiante == e
    ensures r.None? <==> forall c :: c in db.calificaciones ==>
      !(db.calificaciones[c].idEstudiante == e && db.calificaciones[c].idLaboratorio == l)
  {
    var s := CalificacionesDe(db, e, l);
    assert forall c :: c in db.calificaciones && db.calificaciones[c].idEstudiante == e && db.calificaciones[c].idLaboratorio == l ==> c in s;
    Least(s)
  }

  /** Under the (student, lab) index the lookup finds the one grade for the pair. */
  lemma ObtenerCalificacionEspecificaUnica(db: Db, l: nat, e: nat, c: nat)
    requires CalificacionUnica(db.calificaciones)
    requires c in db.calificaciones && db.calificaciones[c].idLaboratorio == l && db.calificaciones[c].idEstudiante == e
    ensures ObtenerCalificacionEspecifica(db, l, e) == Some(c)
  {
    CalificacionesDeAlMasUna(db, e, l, c);
  }

  // ---------------------------------------------------------------------------
  // registrar_calificacion

  /** The score lies in [0, maximum] of lab `l`. */
  predicate EnRango(db: Db, l: nat, nota: real)
    requires l in db.laboratorios
  {
    0.0 <= nota <= db.laboratorios[l].puntajeMaximo
  }

  /** A grade for a pair without one, under a fresh key, keeps the store valid. */
  lemma InsertarCalificacionValid(db: Db, id: nat, fila: Calificacion, n: nat)
    requires Valid(db) && IdsBajo(db, n) && id < n && id !in db.calificaciones
    requires fila.idLaboratorio in db.laboratorios && fila.idEstudiante in db.estudiantes
    requires ObtenerCalificacionEspecifica(db, fila.idLaboratorio, fila.idEstudiante).None?
    ensures Valid(db.(calificaciones := db.calificaciones[id := fila]))
    ensures IdsBajo(db.(calificaciones := db.calificaciones[id := fila]), n)
  {
    CalificacionUnicaTrasInsertar(db, id, fila);
    CambiarCalificaciones(db, db.calificaciones[id := fila], n);
  }

  /** The (student, lab) index survives a row for a pair without one. */
  lemma CalificacionUnicaTrasInsertar(db: Db, id: nat, fila: Calificacion)
    requires CalificacionUnica(db.calificaciones) && id !in db.calificaciones
    requires ObtenerCalificacionEspecifica(db, fila.idLaboratorio, fila.idEstudiante).None?
    ensures CalificacionUnica(db.calificaciones[id := fila])
  {
  }

  /** registrar_calificacion: an unknown lab or student, a score outside
      [0, maximum] of the lab, or a pair already graded (the unique index)
      gives None and changes nothing; otherwise the grade is stored with its
      remark normalised, or NULL when empty. */
  method RegistrarCalificacion(s: Store, l: nat, e: nat, nota: real, observacion: Option<string> := None)
    returns (r: Option<nat>)
    requires s.Valid()
    modifies s
    ensures s.Valid()
    ensures r.None? <==>
      || l !in old(s.laboratorios) || e !in old(s.estudiantes)
      || !EnRango(old(s.Db()), l, nota)
      || ObtenerCalificacionEspecifica(old(s.Db()), l, e).Some?
    ensures r.None? ==> s.Db() == old(s.Db())
    ensures r.Some? ==>
      && r.value !in old(s.calificaciones)
      && s.Db() == old(s.Db()).(calificaciones := old(s.calificaciones)[r.value :=
           Calificacion(l, e, Some(nota), NormalizeOrNull(observacion))])
  {
    if l !in s.laboratorios || e !in s.estudiantes {
      return None;
    }
    var db := s.Db();
    if !EnRango(db, l, nota) {
      return None;
    }
    if ObtenerCalificacionEspecifica(db, l, e).Some? {
      return None;
    }
    var fila := Calificacion(l, e, Some(nota), NormalizeOrNull(observacion));
    var id := s.NuevoId();
    InsertarCalificacionValid(db, id, fila, s.nextId);
    s.Guardar(db.(calificaciones := db.calificaciones[id := fila]));
    r := Some(id);
  }

  /** After a registration the lookup of the pair finds the new grade and its score. */
  lemma RegistrarYObtener(db: Db, id: nat, fila: Calificacion)
    requires CalificacionUnica(db.calificaciones) && id !in db.calificaciones
    requires ObtenerCalificacionEspecifica(db, fila.idLaboratorio, fila.idEstudiante).None?
    ensures var nuevo := db.(calificaciones := db.calificaciones[id := fila]);
      && ObtenerCalificacionEspecifica(nuevo, fila.idLaboratorio, fila.idEstudiante) == Some(id)
      && nuevo.calificaciones[id].calificacion == fila.calificacion
  {
    var nuevo := db.(calificaciones := db.calificaciones[id := fila]);
    assert CalificacionesDe(nuevo, fila.idEstudiante, fila.idLaboratorio) == {id};
  }

  // ---------------------------------------------------------------------------
  // obtener_calificaciones_estudiante, obtener_calificaciones_laboratorio

  /** obtener_calificaciones_estudiante: the student's grades joined with their
      labs, by lab number; [] for an unknown student. */
  method ObtenerCalificacionesEstudiante(db: Db, e: nat) returns (r: seq<nat>)
    ensures e !in db.estudiantes ==> r == []
    ensures e in db.estudiantes ==> IsListing(r, CalificacionesConLab(db, e))
    ensures SortedBy(r, PorNumeroDeLab(db), IntLe)
  {
    if e !in db.estudiantes {
      return [];
    }
    IntLeIsTotalPreorder();
    r := SortBy(CalificacionesConLab(db, e), PorNumeroDeLab(db), IntLe);
  }

  /** The lab's grades whose student exists (the join with Estudiante). */
  function CalificacionesConEstudiante(db: Db, l: nat): set<nat> {
    set c | c in CalificacionesDeLaboratorio(db, l) && db.calificaciones[c].idEstudiante in db.estudiantes
  }

  /** obtener_calificaciones_laboratorio: the lab's grades by student name; []
      for an unknown lab. */
  method ObtenerCalificacionesLaboratorio(db: Db, l: nat) returns (r: seq<nat>)
    ensures l !in db.laboratorios ==> r == []
    ensures l in db.laboratorios ==> IsListing(r, CalificacionesConEstudiante(db, l))
    ensures SortedBy(r, PorNombreDelEstudiante(db), StrLe)
  {
    if l !in db.laboratorios {
      return [];
    }
    StrLeIsTotalOrder();
    r := SortBy(CalificacionesConEstudiante(db, l), PorNombreDelEstudiante(db), StrLe);
  }

  /** In a valid store the joins lose nothing: every grade of the student or
      of the lab is listed. */
  lemma JoinsCompletos(db: Db, e: nat, l: nat)
    requires CalificacionesConReferencias(db.calificaciones, db.laboratorios, db.estudiantes)
    ensures CalificacionesConLab(db, e) == CalificacionesDeEstudiante(db, e)
    ensures CalificacionesConEstudiante(db, l) == CalificacionesDeLaboratorio(db, l)
  {
  }

  // ---------------------------------------------------------------------------
  // actualizar_calificacion

  /** The update is saved: the grade exists and a new score, when given, lies
      in [0, maximum] of the grade's lab. */
  predicate ActualizacionAdmitida(db: Db, id: nat, nueva: Option<real>) {
    && id in db.calificaciones
    && (nueva.Some? ==>
         && db.calificaciones[id].idLaboratorio in db.laboratorios
         && EnRango(db, db.calificaciones[id].idLaboratorio, nueva.value))
  }

  /** The row saved: a given score replaces the old one; a given remark is
      normalised, or NULL when empty; what is not given is kept. */
  function CalificacionActualizada(c: Calificacion, nueva: Option<real>, observacion: Option<string>): Calificacion {
    c.(calificacion := if nueva.Some? then nueva else c.calificacion,
       observaciones := if observacion.Some? then NormalizeOrNull(observacion) else c.observaciones)
  }

  /** An update keeps the store valid: keys and references do not change. */
  lemma ActualizarCalificacionValid(db: Db, id: nat, nueva: Option<real>, observacion: Option<string>, n: nat)
    requires Valid(db) && IdsBajo(db, n) && id in db.calificaciones
    ensures var nuevo := db.(calificaciones := db.calificaciones[id := CalificacionActualizada(db.calificaciones[id], nueva, observacion)]);
      Valid(nuevo) && IdsBajo(nuevo, n)
  {
    var fila := CalificacionActualizada(db.calificaciones[id], nueva, observacion);
    MismoParValid(db.calificaciones, id, fila, db.laboratorios, db.estudiantes);
    CambiarCalificaciones(db, db.calificaciones[id := fila], n);
  }

  /** A grade rewritten for the same (student, lab) pair keeps the index and
      the references of the grade table. */
  lemma MismoParValid(cs: map<nat, Calificacion>, id: nat, fila: Calificacion,
                      ls: map<nat, Laboratorio>, es: map<nat, Estudiante>)
    requires id in cs && fila.idEstudiante == cs[id].idEstudiante && fila.idLaboratorio == cs[id].idLaboratorio
    requires CalificacionUnica(cs) && CalificacionesConReferencias(cs, ls, es)
    ensures CalificacionUnica(cs[id := fila]) && CalificacionesConReferencias(cs[id := fila], ls, es)
  {
  }

  /** actualizar_calificacion: an unknown grade, or a new score out of range,
      gives false and changes nothing. */
  method ActualizarCalificacion(s: Store, id: nat, nueva: Option<real> := None, observacion: Option<string> := None)
    returns (ok: bool)
    requires s.Valid()
    modifies s
    ensures s.Valid()
    ensures ok <==> ActualizacionAdmitida(old(s.Db()), id, nueva)
    ensures !ok ==> s.Db() == old(s.Db())
    ensures ok ==> s.Db() == old(s.Db()).(calificaciones := old(s.calificaciones)[id :=
      CalificacionActualizada(old(s.calificaciones)[id], nueva, observacion)])
  {
    if id !in s.calificaciones {
      return false;
    }
    var db := s.Db();
    var actual := db.calificaciones[id];
    if nueva.Some? && (actual.idLaboratorio !in db.laboratorios || !EnRango(db, actual.idLaboratorio, nueva.value)) {
      return false;
    }
    ActualizarCalificacionValid(db, id, nueva, observacion, s.nextId);
    s.Guardar(db.(calificaciones := db.calificaciones[id := CalificacionActualizada(actual, nueva, observacion)]));
    ok := true;
  }

  /** After an admitted update the lookup of the pair still finds the grade,
      now with the new score, which is in range. */
  lemma ActualizarYObtener(db: Db, id: nat, nueva: Option<real>, observacion: Option<string>)
    requires CalificacionUnica(db.calificaciones) && ActualizacionAdmitida(db, id, nueva) && nueva.Some?
    ensures var c := db.calificaciones[id];
      var nuevo := db.(calificaciones := db.calificaciones[id := CalificacionActualizada(c, nueva, observacion)]);
      && ObtenerCalificacionEspecifica(nuevo, c.idLaboratorio, c.idEstudiante) == Some(id)
      && nuevo.calificaciones[id].calificacion == nueva
      && EnRango(nuevo, c.idLaboratorio, nueva.value)
  {
    var c := db.calificaciones[id];
    var nuevo := db.(calificaciones := db.calificaciones[id := CalificacionActualizada(c, nueva, observacion)]);
    assert CalificacionesDe(nuevo, c.idEstudiante, c.idLaboratorio) == {id};
  }

  // ---------------------------------------------------------------------------
  // eliminar_calificacion

  /** eliminar_calificacion: the grade is deleted, or false for an unknown key. */
  method EliminarCalificacion(s: Store, id: nat) returns (ok: bool)
    requires s.Valid()
    modifies s
    ensures s.Valid()
    ensures ok <==> id in old(s.calificaciones)
    ensures !ok ==> s.Db() == old(s.Db())
    ensures ok ==> s.Db() == old(s.Db()).(calificaciones := old(s.calificaciones) - {id})
  {
    if id !in s.calificaciones {
      return false;
    }
    var db := s.Db();
    s.Guardar(db.(calificaciones := db.calificaciones - {id}));
    ok := true;
  }

  /** Deleting a grade frees its pair: the lookup then finds nothing, so the
      pair can be registered again. */
  lemma EliminarYObtener(db: Db, id: nat)
    requires CalificacionUnica(db.calificaciones) && id in db.calificaciones
    ensures var c := db.calificaciones[id];
      ObtenerCalificacionEspecifica(db.(calificaciones := db.calificaciones - {id}), c.idLaboratorio, c.idEstudiante).None?
  {
    var c := db.calificaciones[id];
    CalificacionesDeAlMasUna(db, c.idEstudiante, c.idLaboratorio, id);
    assert CalificacionesDe(db.(calificaciones := db.calificaciones - {id}), c.idEstudiante, c.idLaboratorio) == {};
  }

  // ---------------------------------------------------------------------------
  // calificar_por_lotes

  /** The batch's entries (student key, score): a dictionary, so no key twice. */
  predicate ClavesDistintas(entradas: seq<(nat, real)>) {
    forall i, j :: 0 <= i < j < |entradas| ==> entradas[i].0 != entradas[j].0
  }

  /** One entry applied: an unknown student changes nothing; a student already
      graded in the lab gets the new score (the remark kept); any other gets a
      new grade under key `n` without remark. Returns the next free key. */
  function PasoLote(db: Db, l: nat, x: (nat, real), n: nat): (r: (Db, nat))
    ensures r.0 == db.(calificaciones := r.0.calificaciones)
    ensures n <= r.1
  {
    if x.0 !in db.estudiantes then (db, n)
    else match ObtenerCalificacionEspecifica(db, l, x.0)
      case Some(c) => (db.(calificaciones := db.calificaciones[c := db.calificaciones[c].(calificacion := Some(x.1))]), n)
      case None => (db.(calificaciones := db.calificaciones[n := Calificacion(l, x.0, Some(x.1), None)]), n + 1)
  }

  /** The entries applied in order, new grades taking keys from `n` up. */
  function Lote(db: Db, l: nat, entradas: seq<(nat, real)>, n: nat): (r: (Db, nat))
    ensures r.0 == db.(calificaciones := r.0.calificaciones)
    ensures n <= r.1
  {
    if entradas == [] then (db, n)
    else
      var previo := Lote(db, l, entradas[..|entradas| - 1], n);
      PasoLote(previo.0, l, entradas[|entradas| - 1], previo.1)
  }

  /** The keys of the entries whose student does not exist, in order. */
  function SinEstudiante(db: Db, entradas: seq<(nat, real)>): (r: seq<nat>)
    ensures |r| <= |entradas|
    ensures forall e :: e in r <==> e !in db.estudiantes && exists i :: 0 <= i < |entradas| && entradas[i].0 == e
  {
    if entradas == [] then []
    else
      var previo := SinEstudiante(db, entradas[..|entradas| - 1]);
      var x := entradas[|entradas| - 1];
      assert forall i :: 0 <= i < |entradas| - 1 ==> entradas[..|entradas| - 1][i] == entradas[i];
      if x.0 in db.estudiantes then previo else previo + [x.0]
  }

  /** One entry keeps the store valid, using keys below the new bound. */
  lemma PasoLoteValid(db: Db, l: nat, x: (nat, real), n: nat)
    requires Valid(db) && IdsBajo(db, n) && l in db.laboratorios
    ensures Valid(PasoLote(db, l, x, n).0) && IdsBajo(PasoLote(db, l, x, n).0, PasoLote(db, l, x, n).1)
  {
    if x.0 in db.estudiantes {
      match ObtenerCalificacionEspecifica(db, l, x.0)
      case Some(c) =>
        ActualizarCalificacionValid(db, c, Some(x.1), None, n);
      case None =>
        InsertarCalificacionValid(db, n, Calificacion(l, x.0, Some(x.1), None), n + 1);
    }
  }

  lemma {:induction false} LoteValid(db: Db, l: nat, entradas: seq<(nat, real)>, n: nat)
    requires Valid(db) && IdsBajo(db, n) && l in db.laboratorios
    ensures Valid(Lote(db, l, entradas, n).0) && IdsBajo(Lote(db, l, entradas, n).0, Lote(db, l, entradas, n).1)
    decreases |entradas|
  {
    if entradas != [] {
      var previo := Lote(db, l, entradas[..|entradas| - 1], n);
      LoteValid(db, l, entradas[..|entradas| - 1], n);
      PasoLoteValid(previo.0, l, entradas[|entradas| - 1], previo.1);
    }
  }

  /** Student `e` has a grade in lab `l` with score `v`. */
  predicate NotaRegistrada(db: Db, e: nat, l: nat, v: real) {
    exists c :: c in db.calificaciones && db.calificaciones[c].idEstudiante == e
      && db.calificaciones[c].idLaboratorio == l && db.calificaciones[c].calificacion == Some(v)
  }

  /** One entry leaves every grade of another student as it was. */
  lemma PasoLoteConserva(db: Db, l: nat, x: (nat, real), n: nat, c: nat)
    requires IdsBajo(db, n)
    requires c in db.calificaciones && db.calificaciones[c].idEstudiante != x.0
    ensures c in PasoLote(db, l, x, n).0.calificaciones
    ensures PasoLote(db, l, x, n).0.calificaciones[c] == db.calificaciones[c]
  {
  }

  /** One entry of an existing student leaves that student graded with its score. */
  lemma PasoLoteRegistra(db: Db, l: nat, x: (nat, real), n: nat)
    requires x.0 in db.estudiantes
    ensures NotaRegistrada(PasoLote(db, l, x, n).0, x.0, l, x.1)
  {
    var r := PasoLote(db, l, x, n).0;
    match ObtenerCalificacionEspecifica(db, l, x.0)
    case Some(c) =>
      assert r.calificaciones[c].calificacion == Some(x.1);
    case None =>
      assert r.calificaciones[n].calificacion == Some(x.1);
  }

  /** A grade not among the entries' students is not touched by the batch. */
  lemma {:induction false} LoteConserva(db: Db, l: nat, entradas: seq<(nat, real)>, n: nat, c: nat)
    requires IdsBajo(db, n)
    requires c in db.calificaciones
    requires forall i :: 0 <= i < |entradas| ==> entradas[i].0 != db.calificaciones[c].idEstudiante
    ensures c in Lote(db, l, entradas, n).0.calificaciones
    ensures Lote(db, l, entradas, n).0.calificaciones[c] == db.calificaciones[c]
    decreases |entradas|
  {
    if entradas != [] {
      var pre := entradas[..|entradas| - 1];
      var previo := Lote(db, l, pre, n);
      LoteConserva(db, l, pre, n, c);
      LoteIdsBajo(db, l, pre, n);
      PasoLoteConserva(previo.0, l, entradas[|entradas| - 1], previo.1, c);
    }
  }

  /** The bound the batch returns is above every key it leaves in use. */
  lemma {:induction false} LoteIdsBajo(db: Db, l: nat, entradas: seq<(nat, real)>, n: nat)
    requires IdsBajo(db, n)
    ensures IdsBajo(Lote(db, l, entradas, n).0, Lote(db, l, entradas, n).1)
    decreases |entradas|
  {
    if entradas != [] {
      var previo := Lote(db, l, entradas[..|entradas| - 1], n);
      LoteIdsBajo(db, l, entradas[..|entradas| - 1], n);
      var r := PasoLote(previo.0, l, entradas[|entradas| - 1], previo.1);
      assert forall k :: k in r.0.calificaciones ==> k in previo.0.calificaciones || k == previo.1;
    }
  }

  /** After the batch every entry whose student exists is graded with its score. */
  lemma {:induction false} LoteRegistra(db: Db, l: nat, entradas: seq<(nat, real)>, n: nat)
    requires IdsBajo(db, n) && ClavesDistintas(entradas)
    ensures forall i :: 0 <= i < |entradas| && entradas[i].0 in db.estudiantes ==>
      NotaRegistrada(Lote(db, l, entradas, n).0, entradas[i].0, l, entradas[i].1)
    decreases |entradas|
  {
    if entradas != [] {
      var pre := entradas[..|entradas| - 1];
      var x := entradas[|entradas| - 1];
      var previo := Lote(db, l, pre, n);
      var r := PasoLote(previo.0, l, x, previo.1).0;
      assert ClavesDistintas(pre) by {
        assert forall i :: 0 <= i < |pre| ==> pre[i] == entradas[i];
      }
      LoteRegistra(db, l, pre, n);
      LoteIdsBajo(db, l, pre, n);
      forall i | 0 <= i < |entradas| && entradas[i].0 in db.estudiantes
        ensures NotaRegistrada(r, entradas[i].0, l, entradas[i].1)
      {
        if i == |entradas| - 1 {
          PasoLoteRegistra(previo.0, l, x, previo.1);
        } else {
          assert pre[i] == entradas[i];
          var c :| c in previo.0.calificaciones && previo.0.calificaciones[c].idEstudiante == entradas[i].0
            && previo.0.calificaciones[c].idLaboratorio == l && previo.0.calificaciones[c].calificacion == Some(entradas[i].1);
          PasoLoteConserva(previo.0, l, x, previo.1, c);
        }
      }
    }
  }

  /** The body of the batch loop for one entry: look the student up, then
      update the pair's grade or create it. */
  method AplicarEntrada(db: Db, l: nat, x: (nat, real), n: nat) returns (nuevo: Db, siguiente: nat, registrada: bool)
    ensures (nuevo, siguiente) == PasoLote(db, l, x, n)
    ensures registrada <==> x.0 in db.estudiantes
  {
    nuevo, siguiente, registrada := db, n, false;
    if x.0 in db.estudiantes {
      var existente := ObtenerCalificacionEspecifica(db, l, x.0);
      if existente.Some? {
        var c := existente.value;
        nuevo := db.(calificaciones := db.calificaciones[c := db.calificaciones[c].(calificacion := Some(x.1))]);
      } else {
        nuevo := db.(calificaciones := db.calificaciones[n := Calificacion(l, x.0, Some(x.1), None)]);
        siguiente := n + 1;
      }
      registrada := true;
    }
  }

  /** Unfolding Lote and SinEstudiante by one entry at the end. */
  lemma LoteUnPasoMas(db: Db, l: nat, entradas: seq<(nat, real)>, i: nat, n: nat)
    requires i < |entradas|
    ensures Lote(db, l, entradas[..i + 1], n) ==
      PasoLote(Lote(db, l, entradas[..i], n).0, l, entradas[i], Lote(db, l, entradas[..i], n).1)
    ensures SinEstudiante(db, entradas[..i + 1]) ==
      SinEstudiante(db, entradas[..i]) + (if entradas[i].0 in db.estudiantes then [] else [entradas[i].0])
  {
    assert entradas[..i + 1][..i] == entradas[..i];
  }

  /** The batch loop over values: every entry applied in order, counting the
      entries whose student exists and collecting the others. */
  method AplicarLote(db: Db, l: nat, entradas: seq<(nat, real)>, n: nat)
    returns (nuevo: Db, siguiente: nat, exitosas: nat, errores: seq<nat>)
    ensures (nuevo, siguiente) == Lote(db, l, entradas, n)
    ensures errores == SinEstudiante(db, entradas)
    ensures exitosas + |errores| == |entradas|
  {
    nuevo, siguiente, exitosas, errores := db, n, 0, [];
    for i := 0 to |entradas|
      invariant (nuevo, siguiente) == Lote(db, l, entradas[..i], n)
      invariant errores == SinEstudiante(db, entradas[..i])
      invariant exitosas + |errores| == i
    {
      LoteUnPasoMas(db, l, entradas, i, n);
      var registrada;
      nuevo, siguiente, registrada := AplicarEntrada(nuevo, l, entradas[i], siguiente);
      if registrada {
        exitosas := exitosas + 1;
      } else {
        errores := errores + [entradas[i].0];
      }
    }
    assert entradas[..|entradas|] == entradas;
  }

  datatype ResultadoLote =
    | Procesado(exitosas: nat, errores: seq<nat>)
    | LaboratorioNoExiste

  /** calificar_por_lotes: for an unknown lab nothing happens; otherwise each
      entry is applied as PasoLote says, an entry of an unknown student being
      reported in `errores` instead. No range check is made. The source
      assigns `nota`, an undefined name; it is read as the entry's score. */
  method CalificarPorLotes(s: Store, l: nat, entradas: seq<(nat, real)>) returns (r: ResultadoLote)
    requires s.Valid() && ClavesDistintas(entradas)
    modifies s
    ensures s.Valid()
    ensures r.LaboratorioNoExiste? <==> l !in old(s.laboratorios)
    ensures r.LaboratorioNoExiste? ==> s.Db() == old(s.Db())
    ensures r.Procesado? ==>
      && r.errores == SinEstudiante(old(s.Db()), entradas)
      && r.exitosas + |r.errores| == |entradas|
      && s.Db() == Lote(old(s.Db()), l, entradas, old(s.nextId)).0
  {
    if l !in s.laboratorios {
      return LaboratorioNoExiste;
    }
    var db := s.Db();
    var nuevo, siguiente, exitosas, errores := AplicarLote(db, l, entradas, s.nextId);
    LoteValid(db, l, entradas, s.nextId);
    s.ReservarHasta(siguiente);
    s.Guardar(nuevo);
    r := Procesado(exitosas, errores);
  }
}
