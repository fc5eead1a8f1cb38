/** Sections (models/paralelo.py): enrolment count, the lab groups in use, the
    section's overall average and the lookup by course and label. */
module ParaleloModel {
  import opened Util
  import opened Text
  import opened Schema
  import opened CalificacionModel

  /** contar_estudiantes */
  function ContarEstudiantes(db: Db, p: nat): nat {
    |EstudiantesDe(db, p)|
  }

  /** Python truthiness of a group: present and not the empty string. */
  predicate TieneGrupo(g: Option<string>) {
    g.Some? && g.value != ""
  }

  /** The groups that at least one student of the section belongs to. */
  function GruposDe(db: Db, p: nat): set<string> {
    set e | e in EstudiantesDe(db, p) && TieneGrupo(db.estudiantes[e].grupo) :: db.estudiantes[e].grupo.value
  }

  /** The loop shared by contar_grupos and obtener_grupos_lista: collect the
      truthy group of every student of the section into a set. */
  method ReunirGrupos(db: Db, p: nat) returns (grupos: set<string>)
    ensures grupos == GruposDe(db, p)
  {
    grupos := {};
    var pendientes := EstudiantesDe(db, p);
    ghost var vistos: set<nat> := {};
    while pendientes != {}
      invariant vistos + pendientes == EstudiantesDe(db, p)
      invariant vistos !! pendientes
      invariant grupos == set e | e in vistos && TieneGrupo(db.estudiantes[e].grupo) :: db.estudiantes[e].grupo.value
      decreases pendientes
    {
      var e :| e in pendientes;
      if TieneGrupo(db.estudiantes[e].grupo) {
        grupos := grupos + {db.estudiantes[e].grupo.value};
      }
      pendientes := pendientes - {e};
      vistos := vistos + {e};
    }
  }

  /** contar_grupos: the number of distinct groups in use. */
  method ContarGrupos(db: Db, p: nat) returns (n: nat)
    ensures n == |GruposDe(db, p)|
  {
    var grupos := ReunirGrupos(db, p);
    n := |grupos|;
  }

  /** obtener_grupos_lista: the groups in use, each once, in ascending order. */
  method ObtenerGruposLista(db: Db, p: nat) returns (r: seq<string>)
    ensures IsListing(r, GruposDe(db, p))
    ensures |r| == |GruposDe(db, p)|
    ensures forall i, j :: 0 <= i < j < |r| ==> StrLe(r[i], r[j]) && r[i] != r[j]
  {
    var grupos := ReunirGrupos(db, p);
    StrLeIsTotalOrder();
    r := SortBy(grupos, (g: string) => g, StrLe);
    ListingLength(r, grupos);
  }

  /** The truthy scores of all grades of the section's students. */
  function NotasParalelo(db: Db, p: nat): seq<real> {
    NotasDe(db, CalificacionesDeParalelo(db, p), Verdadera)
  }

  /** promedio_general: the mean of the truthy scores (0.0 counts as no score,
      as `if cal.calificacion` does), 0.0 without any. The source calls
      `.exist()`; it is read as the evidently intended `.exists()`. */
  function PromedioGeneral(db: Db, p: nat): (r: real)
    ensures |Con(db, CalificacionesDeParalelo(db, p), Verdadera)| == 0 ==> r == 0.0
    ensures |Con(db, CalificacionesDeParalelo(db, p), Verdadera)| > 0 ==>
      r == Sum(NotasParalelo(db, p)) / (|Con(db, CalificacionesDeParalelo(db, p), Verdadera)| as real)
  {
    var ids := CalificacionesDeParalelo(db, p);
    NotasDeCuenta(db, ids, Verdadera, 0.0);
    Mean(NotasParalelo(db, p))
  }

  /** With every score in [lo, hi] the overall average is in [lo, hi] too, or 0.0. */
  lemma PromedioGeneralEnRango(db: Db, p: nat, lo: real, hi: real)
    requires forall c :: c in CalificacionesDeParalelo(db, p) && db.calificaciones[c].calificacion.Some? ==>
      lo <= db.calificaciones[c].calificacion.value <= hi
    ensures PromedioGeneral(db, p) == 0.0 || lo <= PromedioGeneral(db, p) <= hi
  {
    var notas := NotasParalelo(db, p);
    NotasDeRango(db, CalificacionesDeParalelo(db, p), Verdadera, lo, hi);
    if |notas| > 0 {
      MeanWithin(notas, lo, hi);
    }
  }

  /** obtener_por_materia_paralelo: the section of the course whose label is
      the upper-cased argument, or None. */
  function ObtenerPorMateriaParalelo(db: Db, m: nat, nombre: string): (r: Option<nat>)
    ensures r.Some? ==>
      r.value in db.paralelos && db.paralelos[r.value].idMateria == m && db.paralelos[r.value].paralelo == Upper(nombre)
    ensures r.None? <==> forall p :: p in db.paralelos ==>
      !(db.paralelos[p].idMateria == m && db.paralelos[p].paralelo == Upper(nombre))
  {
    var s := set p | p in db.paralelos && db.paralelos[p].idMateria == m && db.paralelos[p].paralelo == Upper(nombre);
    assert forall p :: p in db.paralelos && db.paralelos[p].idMateria == m && db.paralelos[p].paralelo == Upper(nombre) ==> p in s;
    Least(s)
  }

  /** Under the (course, label) index the lookup finds the one matching section,
      whatever the case of the label asked for. */
  lemma ObtenerPorMateriaParaleloUnico(db: Db, m: nat, nombre: string, p: nat)
    requires ParalelosUnicos(db.paralelos)
    requires p in db.paralelos && db.paralelos[p].idMateria == m && db.paralelos[p].paralelo == Upper(nombre)
    ensures ObtenerPorMateriaParalelo(db, m, nombre) == Some(p)
    ensures ObtenerPorMateriaParalelo(db, m, Upper(nombre)) == Some(p)
  {
    UpperIdempotent(nombre);
  }
}
