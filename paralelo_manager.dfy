/** Section operations (managers/paralelo_manager.py): create and list. */
module ParaleloManager {
  import opened Util
  import opened Text
  import opened Schema
  import opened Database

  /** Course `m` already has a section with that label. */
  predicate EtiquetaEnUso(db: Db, m: nat, etiqueta: string) {
    exists p :: p in db.paralelos && db.paralelos[p].idMateria == m && db.paralelos[p].paralelo == etiqueta
  }

  /** Adding a section of an existing course under a fresh key, with a label
      the course does not use yet, keeps the store valid. */
  lemma InsertarParaleloValid(db: Db, id: nat, fila: Paralelo, n: nat)
    requires Valid(db) && IdsBajo(db, n) && id < n && id !in db.paralelos
    requires fila.idMateria in db.materias && !EtiquetaEnUso(db, fila.idMateria, fila.paralelo)
    ensures Valid(db.(paralelos := db.paralelos[id := fila])) && IdsBajo(db.(paralelos := db.paralelos[id := fila]), n)
  {
  }

  /** crear_paralelo: the label and the teacher are stored stripped and
      upper-cased. An unknown course, or a label the course already has (the
      unique index), gives None and changes nothing. The source prints
      `paralelo.nombre` after the insert, an undefined name; the model returns
      the new section as the code evidently intends. */
  method CrearParalelo(s: Store, m: nat, nombre: string, docente: string) returns (r: Option<nat>)
    requires s.Valid()
    modifies s
    ensures s.Valid()
    ensures r.None? <==> m !in old(s.materias) || EtiquetaEnUso(old(s.Db()), m, Normalize(nombre))
    ensures r.None? ==> s.Db() == old(s.Db())
    ensures r.Some? ==>
      && r.value !in old(s.paralelos)
      && s.Db() == old(s.Db()).(paralelos := old(s.paralelos)[r.value := Paralelo(Normalize(nombre), m, Normalize(docente))])
  {
    if m !in s.materias {
      return None;
    }
    var fila := Paralelo(Normalize(nombre), m, Normalize(docente));
    var db := s.Db();
    if EtiquetaEnUso(db, m, fila.paralelo) {
      return None;
    }
    var id := s.NuevoId();
    InsertarParaleloValid(db, id, fila, s.nextId);
    s.Guardar(db.(paralelos := db.paralelos[id := fila]));
    r := Some(id);
  }

  function PorEtiqueta(db: Db): nat -> string {
    (p: nat) => if p in db.paralelos then db.paralelos[p].paralelo else ""
  }

  /** listar_paralelos_por_materia: the course's sections ordered by label, or
      [] for an unknown course. */
  method ListarParalelosPorMateria(db: Db, m: nat) returns (r: seq<nat>)
    ensures m !in db.materias ==> r == []
    ensures m in db.materias ==> IsListing(r, ParalelosDe(db, m))
    ensures SortedBy(r, PorEtiqueta(db), StrLe)
  {
    if m !in db.materias {
      return [];
    }
    StrLeIsTotalOrder();
    r := SortBy(ParalelosDe(db, m), PorEtiqueta(db), StrLe);
  }
}
