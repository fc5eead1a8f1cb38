/** The SQLite database the managers write to, as one object holding the five
    tables and the next free primary key. */
module Database {
  import opened Util
  import opened Schema

  class Store {
    var materias: map<nat, Materia>
    var paralelos: map<nat, Paralelo>
    var estudiantes: map<nat, Estudiante>
    var laboratorios: map<nat, Laboratorio>
    var calificaciones: map<nat, Calificacion>
    /** The key the next inserted row receives. */
    var nextId: nat

    /** The current contents of the tables. */
    function Db(): Schema.Db
      reads this
    {
      Schema.Db(materias, paralelos, estudiantes, laboratorios, calificaciones)
    }

    ghost predicate Valid()
      reads this
    {
      Schema.Valid(Db()) && IdsBajo(Db(), nextId)
    }

    /** A new, empty database (`inicializar_bd` on a fresh file). */
    constructor ()
      ensures Valid()
      ensures Db() == Vacia
    {
      materias := map[];
      paralelos := map[];
      estudiantes := map[];
      laboratorios := map[];
      calificaciones := map[];
      nextId := 0;
    }

    /** Reserves a primary key no row uses. */
    method NuevoId() returns (id: nat)
      requires Valid()
      modifies this
      ensures Valid()
      ensures id == old(nextId) && nextId == id + 1
      ensures Db() == old(Db())
      ensures id !in materias && id !in paralelos && id !in estudiantes
      ensures id !in laboratorios && id !in calificaciones
    {
      id := nextId;
      nextId := nextId + 1;
    }

    /** Reserves every key below `n`, for rows a batch is about to write. */
    method ReservarHasta(n: nat)
      requires Valid() && nextId <= n
      modifies this
      ensures Valid()
      ensures Db() == old(Db()) && nextId == n
    {
      nextId := n;
    }

    /** Writes the five tables at once, as one committed change. */
    method Guardar(db: Schema.Db)
      requires Schema.Valid(db) && IdsBajo(db, nextId)
      modifies this
      ensures Valid()
      ensures Db() == db && nextId == old(nextId)
    {
      materias := db.materias;
      paralelos := db.paralelos;
      estudiantes := db.estudiantes;
      laboratorios := db.laboratorios;
      calificaciones := db.calificaciones;
    }
  }
}
