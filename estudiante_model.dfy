/** Students (models/estudiante.py): grade count and average of a student, the
    per-lab view of the student's grades, and the two lookups. */
module EstudianteModel {
  import opened Util
  import opened Text
  import opened Schema
  import opened CalificacionModel

  /** contar_calificaciones */
  function ContarCalificaciones(db: Db, e: nat): nat {
    |CalificacionesDeEstudiante(db, e)|
  }

  /** The non-null scores of the student's grades. */
  function NotasEstudiante(db: Db, e: nat): seq<real> {
    NotasDe(db, CalificacionesDeEstudiante(db, e), NoNula)
  }

  /** promedio_calificaciones: mean of the non-null scores, 0.0 without any.
      The source sums `cal.calificaciones` and calls `.exist()`; both are read
      as the evidently intended `cal.calificacion` and `.exists()`. */
  function PromedioCalificaciones(db: Db, e: nat): (r: real)
    ensures |Con(db, CalificacionesDeEstudiante(db, e), NoNula)| == 0 ==> r == 0.0
    ensures |Con(db, CalificacionesDeEstudiante(db, e), NoNula)| > 0 ==>
      r == Sum(NotasEstudiante(db, e)) / (|Con(db, CalificacionesDeEstudiante(db, e), NoNula)| as real)
  {
    var ids := CalificacionesDeEstudiante(db, e);
    NotasDeCuenta(db, ids, NoNula, 0.0);
    Mean(NotasEstudiante(db, e))
  }

  // ---------------------------------------------------------------------------
  // calificaciones_por_laboratorio

  /** One entry of the per-lab view; the registration timestamp (`fecha`) is
      not modelled. */
  datatype EntradaLab = EntradaLab(titulo: string, calificacion: Option<real>)

  function ClaveLab(numero: int): string {
    "Lab " + IntToString(numero)
  }

  /** The student's grades whose lab exists (the join with Laboratorio). */
  function CalificacionesConLab(db: Db, e: nat): set<nat> {
    set c | c in CalificacionesDeEstudiante(db, e) && db.calificaciones[c].idLaboratorio in db.laboratorios
  }

  function NumeroDeCalificacion(db: Db, c: nat): int {
    if c in db.calificaciones && db.calificaciones[c].idLaboratorio in db.laboratorios
    then db.laboratorios[db.calificaciones[c].idLaboratorio].numero
    else 0
  }

  function PorNumeroDeLab(db: Db): nat -> int {
    (c: nat) => NumeroDeCalificacion(db, c)
  }

  /** The key of grade `c` in the per-lab view. */
  function ClaveDe(db: Db, c: nat): string {
    ClaveLab(NumeroDeCalificacion(db, c))
  }

  /** The entry grade `c` contributes: its lab's title and its score. */
  function EntradaDe(db: Db, c: nat): EntradaLab {
    if c in db.calificaciones && db.calificaciones[c].idLaboratorio in db.laboratorios
    then EntradaLab(db.laboratorios[db.calificaciones[c].idLaboratorio].titulo, db.calificaciones[c].calificacion)
    else EntradaLab("", None)
  }

  /** `c` is one of the student's joined grades and no other has its lab number. */
  ghost predicate UnicoEnSuNumero(db: Db, e: nat, c: nat) {
    && c in CalificacionesConLab(db, e)
    && forall d :: d in CalificacionesConLab(db, e) && NumeroDeCalificacion(db, d) == NumeroDeCalificacion(db, c) ==> d == c
  }

  /** calificaciones_por_laboratorio: a "Lab <numero>" entry for each of the
      student's grades, visited by lab number. Each entry is the title and
      score of a grade of that number; where only one of the student's grades
      has that number, it is that grade's. (Labs of different courses may share
      a number, and then one of them is kept.) The dictionary keeps its keys in
      the order they were first inserted; `claves` is that order, one key
      each, and `numeros` the lab numbers behind them, strictly ascending.
      The source reads `cal.fech_registro` (models/estudiante.py:66), a field
      that does not exist; as written, any student with a grade raises
      AttributeError here. It is read as the evidently intended
      `fecha_registro`. */
  method CalificacionesPorLaboratorio(db: Db, e: nat)
      returns (r: map<string, EntradaLab>, ghost claves: seq<string>, ghost numeros: seq<int>)
    ensures r.Keys == set c | c in CalificacionesConLab(db, e) :: ClaveDe(db, c)
    ensures forall k :: k in r ==>
      exists c :: c in CalificacionesConLab(db, e) && ClaveDe(db, c) == k && r[k] == EntradaDe(db, c)
    ensures forall c :: UnicoEnSuNumero(db, e, c) ==> r[ClaveDe(db, c)] == EntradaDe(db, c)
    ensures forall k :: k in r <==> k in claves
    ensures Distinct(claves)
    ensures |numeros| == |claves|
    ensures forall a :: 0 <= a < |claves| ==> claves[a] == ClaveLab(numeros[a])
    ensures Creciente(numeros)
  {
    IntLeIsTotalPreorder();
    var orden := SortBy(CalificacionesConLab(db, e), PorNumeroDeLab(db), IntLe);
    r := map[];
    for i := 0 to |orden|
      invariant r.Keys == set j | 0 <= j < i :: ClaveDe(db, orden[j])
      invariant forall k :: k in r ==>
        exists j :: 0 <= j < i && ClaveDe(db, orden[j]) == k && r[k] == EntradaDe(db, orden[j])
    {
      r := r[ClaveDe(db, orden[i]) := EntradaDe(db, orden[i])];
    }
    PorLaboratorioFinal(db, e, orden, r);
    numeros := SinRepetir(NumerosDe(db, orden));
    NumerosDeOrdenados(db, orden);
    SinRepetirCreciente(NumerosDe(db, orden));
    claves := seq(|numeros|, a requires 0 <= a < |numeros| => ClaveLab(numeros[a]));
    ClavesFinal(db, orden, r, numeros, claves);
  }

  /** The lab numbers of the grades, in the order visited. */
  function NumerosDe(db: Db, orden: seq<nat>): (r: seq<int>)
    ensures |r| == |orden|
    ensures forall j :: 0 <= j < |orden| ==> r[j] == NumeroDeCalificacion(db, orden[j])
  {
    seq(|orden|, j requires 0 <= j < |orden| => NumeroDeCalificacion(db, orden[j]))
  }

  predicate NoDecreciente(xs: seq<int>) {
    forall a, b :: 0 <= a < b < |xs| ==> xs[a] <= xs[b]
  }

  predicate Creciente(xs: seq<int>) {
    forall a, b :: 0 <= a < b < |xs| ==> xs[a] < xs[b]
  }

  /** `xs` with each run of equal neighbours kept once: on a sorted sequence,
      the values in the order they first appear. */
  function SinRepetir(xs: seq<int>): (r: seq<int>)
    ensures forall x :: x in r <==> x in xs
    ensures |xs| > 0 ==> |r| > 0 && r[0] == xs[0]
  {
    if |xs| <= 1 then xs
    else if xs[0] == xs[1] then SinRepetir(xs[1..])
    else [xs[0]] + SinRepetir(xs[1..])
  }

  /** Sorted in, strictly ascending out. */
  lemma {:induction false} SinRepetirCreciente(xs: seq<int>)
    requires NoDecreciente(xs)
    ensures Creciente(SinRepetir(xs))
  {
    if |xs| > 1 {
      assert NoDecreciente(xs[1..]) by {
        forall a, b | 0 <= a < b < |xs[1..]| ensures xs[1..][a] <= xs[1..][b] {
          assert xs[1..][a] == xs[a + 1] && xs[1..][b] == xs[b + 1];
        }
      }
      SinRepetirCreciente(xs[1..]);
      if xs[0] != xs[1] {
        var t := SinRepetir(xs[1..]);
        forall y | y in t ensures xs[0] < y {
          var b :| 1 <= b < |xs| && xs[b] == y by {
            assert y in xs[1..];
            var b' :| 0 <= b' < |xs[1..]| && xs[1..][b'] == y;
            assert xs[b' + 1] == y;
          }
          assert xs[0] <= xs[1] <= xs[b];
        }
        var r := [xs[0]] + t;
        forall a, b | 0 <= a < b < |r| ensures r[a] < r[b] {
          if a == 0 {
            assert r[b] == t[b - 1] && t[b - 1] in t;
          } else {
            assert r[a] == t[a - 1] && r[b] == t[b - 1];
          }
        }
      }
    }
  }

  /** The listing from the sort visits lab numbers in ascending order. */
  lemma NumerosDeOrdenados(db: Db, orden: seq<nat>)
    requires SortedBy(orden, PorNumeroDeLab(db), IntLe)
    ensures NoDecreciente(NumerosDe(db, orden))
  {
    var ns := NumerosDe(db, orden);
    forall a, b | 0 <= a < b < |ns| ensures ns[a] <= ns[b] {
      assert IntLe(PorNumeroDeLab(db)(orden[a]), PorNumeroDeLab(db)(orden[b]));
    }
  }

  /** From the lab numbers visited to the dictionary's keys: one key per
      distinct number, and no key twice. */
  lemma ClavesFinal(db: Db, orden: seq<nat>, r: map<string, EntradaLab>, numeros: seq<int>, claves: seq<string>)
    requires r.Keys == set j | 0 <= j < |orden| :: ClaveDe(db, orden[j])
    requires Creciente(numeros)
    requires forall x :: x in numeros <==> x in NumerosDe(db, orden)
    requires |claves| == |numeros|
    requires forall a :: 0 <= a < |claves| ==> claves[a] == ClaveLab(numeros[a])
    ensures forall k :: k in r <==> k in claves
    ensures Distinct(claves)
  {
    var ns := NumerosDe(db, orden);
    forall k | k in r ensures k in claves {
      var j :| 0 <= j < |orden| && ClaveDe(db, orden[j]) == k;
      assert ns[j] in ns;
      var a :| 0 <= a < |numeros| && numeros[a] == ns[j];
      assert claves[a] == k;
    }
    forall k | k in claves ensures k in r {
      var a :| 0 <= a < |claves| && claves[a] == k;
      assert numeros[a] in numeros;
      var j :| 0 <= j < |ns| && ns[j] == numeros[a];
      assert ClaveDe(db, orden[j]) == k;
    }
    forall a, b | 0 <= a < b < |claves| ensures claves[a] != claves[b] {
      if claves[a] == claves[b] {
        PrefixedIntInjective("Lab ", numeros[a], numeros[b]);
      }
    }
  }

  /** From the loop's view over the listing `orden` to the one over the set. */
  lemma PorLaboratorioFinal(db: Db, e: nat, orden: seq<nat>, r: map<string, EntradaLab>)
    requires IsListing(orden, CalificacionesConLab(db, e))
    requires r.Keys == set j | 0 <= j < |orden| :: ClaveDe(db, orden[j])
    requires forall k :: k in r ==>
      exists j :: 0 <= j < |orden| && ClaveDe(db, orden[j]) == k && r[k] == EntradaDe(db, orden[j])
    ensures r.Keys == set c | c in CalificacionesConLab(db, e) :: ClaveDe(db, c)
    ensures forall k :: k in r ==>
      exists c :: c in CalificacionesConLab(db, e) && ClaveDe(db, c) == k && r[k] == EntradaDe(db, c)
    ensures forall c :: UnicoEnSuNumero(db, e, c) ==> r[ClaveDe(db, c)] == EntradaDe(db, c)
  {
    var s := CalificacionesConLab(db, e);
    forall c | c in s ensures exists j :: 0 <= j < |orden| && orden[j] == c {
      assert c in orden;
    }
    forall k | k in r
      ensures exists c :: c in s && ClaveDe(db, c) == k && r[k] == EntradaDe(db, c)
    {
      var j :| 0 <= j < |orden| && ClaveDe(db, orden[j]) == k && r[k] == EntradaDe(db, orden[j]);
      assert orden[j] in orden;
    }
    forall c | UnicoEnSuNumero(db, e, c)
      ensures r[ClaveDe(db, c)] == EntradaDe(db, c)
    {
      var j0 :| 0 <= j0 < |orden| && orden[j0] == c;
      var k := ClaveDe(db, c);
      var j :| 0 <= j < |orden| && ClaveDe(db, orden[j]) == k && r[k] == EntradaDe(db, orden[j]);
      assert orden[j] in orden;
      PrefixedIntInjective("Lab ", NumeroDeCalificacion(db, orden[j]), NumeroDeCalificacion(db, c));
    }
  }

  // ---------------------------------------------------------------------------
  // Lookups

  /** obtener_por_ci: the student with exactly that CI, or None. */
  function ObtenerPorCi(db: Db, ci: string): (r: Option<nat>)
    ensures r.Some? ==> r.value in db.estudiantes && db.estudiantes[r.value].ci == ci
    ensures r.None? <==> forall e :: e in db.estudiantes ==> db.estudiantes[e].ci != ci
  {
    var s := set e | e in db.estudiantes && db.estudiantes[e].ci == ci;
    assert forall e :: e in db.estudiantes && db.estudiantes[e].ci == ci ==> e in s;
    Least(s)
  }

  /** Under the unique CI the lookup finds the one student holding it. */
  lemma ObtenerPorCiUnico(db: Db, ci: string, e: nat)
    requires CiUnico(db.estudiantes)
    requires e in db.estudiantes && db.estudiantes[e].ci == ci
    ensures ObtenerPorCi(db, ci) == Some(e)
  {
  }

  /** The students of section `p` whose group is `g`; None matches a NULL group. */
  function EstudiantesDeGrupo(db: Db, p: nat, g: Option<string>): set<nat> {
    set e | e in EstudiantesDe(db, p) && db.estudiantes[e].grupo == g
  }

  /** obtener_por_paralelo_grupo: those students, by name. */
  method ObtenerPorParaleloGrupo(db: Db, p: nat, g: Option<string>) returns (r: seq<nat>)
    ensures IsListing(r, EstudiantesDeGrupo(db, p, g))
    ensures SortedBy(r, NombreDe(db), StrLe)
  {
    StrLeIsTotalOrder();
    r := SortBy(EstudiantesDeGrupo(db, p, g), NombreDe(db), StrLe);
  }
}
