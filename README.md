# Laboratory grades: a verified model of the data layer

The system keeps the lab grades of university courses in one SQLite file.
A course (`materia`) has sections (`paralelos`) and numbered lab assignments
(`laboratorios`). A section has enrolled students (`estudiantes`), each
optionally in a lab group. A grade (`calificacion`) joins one student to one
lab.

The five peewee models define the tables, their unique indexes and the
queries and statistics on each entity. The five managers are the operations
the user interfaces call: create, list, look up, update and delete each
entity, grade in batches, form lab groups and compute summaries.

This project models that layer in Dafny:

- **Tables.** `Schema.Db` holds the five tables as maps from primary key to
  row. `Schema.Valid` states every unique index and every foreign key.
- **The database file.** `Database.Store` is a class holding the five tables
  and the next free key. Every manager operation that writes is a method on a
  `Store` that keeps `Valid()`. Its `ensures` give the whole new contents as
  a function of the old ones.
- **Queries.** Read-only queries are functions or methods on a `Db` value.
- **Text.** The text normalisation the managers apply (`strip()`,
  `upper()`), SQLite's text ordering and the integer-to-text rendering of
  keys are modelled in `Text`.
- **Reading the source.** Where the code has a plain misspelling (a name
  that does not exist), the model follows the evident intent. As written,
  each such name raises NameError, AttributeError or ImportError where it is
  reached. The operation then returns its error result, or raises when
  nothing catches it. The list below names each one. The three places where the
  code as written does something other than what it evidently intends are
  shown under "## Findings", with both readings in the Dafny.

Files, one module each:

- `util.dfy`: Option, sorting by key, counting, sums, means, floor division.
- `text.dfy`: strip/upper, text order, number rendering.
- `schema.dfy`: rows, tables, integrity rules.
- `database.dfy`: the Store class.
- `materia_model.dfy`, `paralelo_model.dfy`, `estudiante_model.dfy`,
  `laboratorio_model.dfy`, `calificacion_model.dfy`: one per model file.
- `materia_manager.dfy`, `paralelo_manager.dfy`, `estudiante_manager.dfy`,
  `laboratorio_manager.dfy`, `calificacion_manager.dfy`: one per manager.

Misspellings read as intended:

- `.exist()` is read as `.exists()`.
- `cal.calificaciones` is read as `cal.calificacion` (models/estudiante.py:48).
- `cal.fech_registro` is read as `cal.fecha_registro` (models/estudiante.py:66).
  As written, `calificaciones_por_laboratorio` raises AttributeError for any
  student with a grade. The timestamp itself is not modelled.
- `contar_parelelos` is read as `contar_paralelos` (models/materia.py:54).
- `calor`, `hassattr` and `printf` are read as `valor`, `hasattr` and `print`
  (managers/materia_manager.py:110-128).
- `campo.items()` is read as `campos.items()` (managers/laboratorio_manager.py:119).
- The imports of `calificacion` / `calificaciones` are read as importing
  `Calificacion` (managers/materia_manager.py:164,
  managers/laboratorio_manager.py:163, managers/estudiante_manager.py:206).
  As written, each raises ImportError when reached. A forced delete of a
  course, lab or student that has dependants or grades then deletes nothing
  and reports failure.
- `Calificaciones.get` is read as `Calificacion.get`
  (managers/calificacion_manager.py:112).
- The undefined `nota` is read as the entry's `calificacion`
  (managers/calificacion_manager.py:220, 227).
- `estrudiantes` is read as `estudiantes` (managers/estudiante_manager.py:257).
- `Estudiante.buscar_por_ci` is read as `Estudiante.obtener_por_ci`
  (managers/estudiante_manager.py:103).
- `paralelo.nombre` in the success message is read as the new section
  (managers/paralelo_manager.py:35). As written, the NameError would make
  crear_paralelo return None after inserting the row.
- The result keys `succes` / `sucess` are read as `success`.
- `sef` in `Laboratorio.__str__` (models/laboratorio.py:31) would be read as
  `self`. `eliminar_laboratorio` calls it (managers/laboratorio_manager.py:171).
  As written, no lab is ever deleted, and that case is shown under
  "## Findings". `sef` in `Estudiante.nombre_completo_con_info`
  (models/estudiante.py:33) is in a method no manager calls.
- The lab helpers that models/materia.py:59-74 defines on `Materia` query
  labs. They are modelled on labs, ordered and numbered by `numero`.

## Model

| member | source | states |
|---|---|---|
| Schema.CalificacionesDeAlMasUna | models/calificacion.py:28-30 | under the (student, lab) index a student has at most one grade per lab |
| Text.TrimStart | managers/materia_manager.py:27-28 | the result is a suffix of the text that does not begin with whitespace, and everything cut off is whitespace |
| Text.TrimEnd | managers/materia_manager.py:27-28 | the result is a prefix of the text that does not end with whitespace, and everything cut off is whitespace |
| Text.StripSpec | managers/materia_manager.py:27-28 | a stripped text neither begins nor ends with whitespace |
| Text.StripIdempotent | managers/estudiante_manager.py:137-150 | stripping a stripped text changes nothing |
| Text.Upper | managers/materia_manager.py:27-28 | `upper()` keeps the length and maps each character on its own |
| Text.UpperIdempotent | managers/materia_manager.py:27-28 | upper-casing an upper-cased text changes nothing |
| Text.NormalizeIdempotent | managers/materia_manager.py:96-113 | stripping and upper-casing twice gives the same text as once |
| Text.StrLeIsTotalOrder | managers/materia_manager.py:47 | the text order used for `order_by` on text columns is a total order |
| Text.IntToStringInjective | models/calificacion.py:126 | different numbers render as different texts, so the keys built from them differ |
| Util.FloorDiv | managers/estudiante_manager.py:258-263 | Python `//`: the quotient rounds toward minus infinity, stated as bounds for either sign of the divisor |
| MateriaModel.ContarEstudiantesTotal | models/materia.py:34-39 | summing each section's enrolment over the course's sections gives the number of students of the course |
| MateriaModel.ObtenerPorSigla | models/materia.py:41-47 | returns a course whose code is the upper-cased argument, and None exactly when no course has that code |
| MateriaModel.ObtenerPorSiglaUnica | models/materia.py:18 | under the unique code the lookup returns the one course holding it, whatever case the argument is in |
| MateriaModel.EstadisticasCompletas | models/materia.py:49-57 | code, name, and the numbers of sections, labs and students of the course |
| ParaleloModel.ReunirGrupos | models/paralelo.py:33-39 | the loop collects exactly the truthy groups of the section's students |
| ParaleloModel.ContarGrupos | models/paralelo.py:33-39 | the number of distinct groups in use in the section |
| ParaleloModel.ObtenerGruposLista | models/paralelo.py:41-47 | every group in use exactly once, in strictly ascending order |
| ParaleloModel.PromedioGeneral | models/paralelo.py:49-64 | 0.0 without truthy scores, otherwise their sum divided by the number of grades with a truthy score |
| ParaleloModel.PromedioGeneralEnRango | models/paralelo.py:49-64 | with all scores in [lo, hi] the section's average is in [lo, hi], or 0.0 |
| ParaleloModel.ObtenerPorMateriaParalelo | models/paralelo.py:66-75 | returns a section of the course with the upper-cased label, and None exactly when there is none |
| ParaleloModel.ObtenerPorMateriaParaleloUnico | models/paralelo.py:22-24 | under the (course, label) index the lookup returns the one matching section |
| EstudianteModel.PromedioCalificaciones | models/estudiante.py:40-49 | 0.0 without non-null scores, otherwise their sum divided by the number of grades holding one |
| EstudianteModel.CalificacionesPorLaboratorio | models/estudiante.py:51-69 | one "Lab <numero>" key per lab number the student has a grade in, each holding the title and score of such a grade; the grade itself when it is the only one with that number; the ghost `claves` lists the keys once each in strictly ascending lab-number order, the dict's insertion order under `order_by(Laboratorio.numero)` |
| EstudianteModel.SinRepetir | models/estudiante.py:57-63 | the first-insertion order of keys over a visit: each run of equal lab numbers kept once, with exactly the numbers visited |
| EstudianteModel.SinRepetirCreciente | models/estudiante.py:57-63 | over grades visited in ascending lab number, that insertion order is strictly ascending |
| EstudianteModel.ObtenerPorCi | models/estudiante.py:71-77 | returns a student with exactly that CI, and None exactly when there is none |
| EstudianteModel.ObtenerPorCiUnico | models/estudiante.py:16 | under the unique CI the lookup returns the one student holding it |
| EstudianteModel.ObtenerPorParaleloGrupo | models/estudiante.py:79-85 | exactly the section's students in that group, ordered by name |
| LaboratorioModel.PromedioCalificaciones | models/laboratorio.py:37-46 | 0.0 without non-null scores, otherwise their sum divided by the number of grades holding one |
| LaboratorioModel.PromedioEnRango | models/laboratorio.py:37-46 | when every score is within [0, puntaje_maximo] so is the average |
| LaboratorioModel.EstadisticasDetalladas | models/laboratorio.py:48-75 | counts of scored and passed grades (score >= 51) add up; without scores the fixed record with the lab's maximum; otherwise the extremes are scores that bracket every score and the average |
| LaboratorioModel.SiguienteNumero | models/materia.py:67-74 | 1 for a course without labs, otherwise one more than the largest lab number of the course |
| LaboratorioModel.ObtenerPorMateria | models/materia.py:59-65 | exactly the course's labs, ordered by number |
| CalificacionModel.PorcentajeNota | models/calificacion.py:36-42 | 0.0 without a truthy score, otherwise the percentage p with p * maximum == score * 100 |
| CalificacionModel.PorcentajeEnRango | models/calificacion.py:36-42 | a score within [0, maximum] gives a percentage within [0, 100] |
| CalificacionModel.EstadoAprobacion | models/calificacion.py:44-50 | "Sin Nota" exactly without a truthy score, "Aprobado" exactly when the percentage reaches 51 |
| CalificacionModel.EsAprobado | models/calificacion.py:52-54 | true exactly in the "Aprobado" state; with a positive maximum, exactly when score * 100 >= 51 * maximum |
| CalificacionModel.UmbralesCoincidenSobre100 | models/calificacion.py:44-54 | for a lab out of 100 the percentage rule and the raw rule "score >= 51" agree |
| CalificacionModel.ObtenerPorParalelo | models/calificacion.py:56-64 | exactly the grades of the section's students, ordered by student name |
| CalificacionModel.EstadisticasDeParalelo | models/calificacion.py:66-90 | counts of non-null, passing (>= 51) and empty grades of the section; passed plus failed is the total; the mean of the scores, 0.0 without any |
| CalificacionModel.CalcularFila | models/calificacion.py:107-135 | the inner loop over the labs builds exactly the row FilaDe describes |
| CalificacionModel.FilaPromedio | models/calificacion.py:128-135 | the row average is 0.0 without truthy cells, otherwise the mean over the truthy cells only |
| CalificacionModel.FilaCompleta | models/calificacion.py:119-133 | a row has one key "lab_<numero>" per lab of the course, holding that lab's cell: None without a grade, 0 for an empty score |
| CalificacionModel.MatrizCalificacionesParalelo | models/calificacion.py:92-138 | one row per student of the section in name order, over the course's labs in number order |
| MateriaManager.CrearMateria | managers/materia_manager.py:15-38 | name and code stored normalised under a fresh key; None with nothing changed exactly when the normalised code is taken |
| MateriaManager.InsertarMateriaValid | models/materia.py:18 | inserting a course whose code is free keeps every index and reference |
| MateriaManager.ListarMaterias | managers/materia_manager.py:41-47 | every course, ordered by code |
| MateriaManager.ListadoSinEmpates | models/materia.py:18 | under the unique code the course listing has no two equal codes |
| MateriaManager.ObtenerMateria | managers/materia_manager.py:50-64 | the course with that key, None exactly when there is none |
| MateriaManager.MateriaActualizada | managers/materia_manager.py:95-115 | each given field normalised once, every other field kept |
| MateriaManager.ActualizarMateria | managers/materia_manager.py:80-129 | fails, changing nothing, exactly for an unknown key or a changed code another course holds; otherwise saves exactly the updated row |
| MateriaManager.ActualizarMateriaValid | managers/materia_manager.py:94-107 | an update that passed the code check keeps the store valid |
| MateriaManager.CascadaComoEscritaSinEstudiantesBorrados | managers/materia_manager.py:169-184 | the forced delete as written leaves no grade on a deleted student |
| MateriaManager.CascadaComoEscritaDejaHuerfanas | managers/materia_manager.py:169-194 | a valid store where the forced delete as written leaves a grade on a deleted lab |
| MateriaManager.CascadaMateriaValid | managers/materia_manager.py:162-203 | the corrected forced delete keeps every index and reference, and removes the course |
| MateriaManager.CascadaSinDependencias | managers/materia_manager.py:151-203 | for a course without sections and labs the delete removes only the course |
| MateriaManager.EliminarMateria | managers/materia_manager.py:132-221 | NoExiste for an unknown key; the three dependency counts, changing nothing, when not forced and any is positive; otherwise the corrected cascade |
| MateriaManager.BorrarCalificacionesDeMateria | managers/materia_manager.py:169-176 | the nested loop deletes exactly the grades of the course's students |
| MateriaManager.BorrarEstudiantesDeMateria | managers/materia_manager.py:178-184 | the loop deletes exactly the course's students |
| MateriaManager.SumarParalelos | managers/materia_manager.py:235 | the summed counts equal the number of sections of all courses |
| MateriaManager.SumarLaboratorios | managers/materia_manager.py:237 | the summed counts equal the number of labs of all courses |
| MateriaManager.SumarEstudiantes | managers/materia_manager.py:236 | the summed counts equal the number of students of all courses |
| MateriaManager.PorMateria | managers/materia_manager.py:244-245 | 0 without courses, otherwise r with r * courses == total |
| MateriaManager.ObtenerEstadisticasGenerales | managers/materia_manager.py:224-246 | the number of courses, the three summed totals and the two per-course averages |
| MateriaManager.TotalesSonTablas | managers/materia_manager.py:233-237 | with valid references the summed totals are the sizes of the section, lab and student tables |
| MateriaManager.BuscarMaterias | managers/materia_manager.py:249-265 | exactly the courses whose name or code contains the term, ignoring ASCII case, ordered by code |
| MateriaManager.BuscarVacioEsListar | managers/materia_manager.py:262-263 | the empty term matches every course |
| ParaleloManager.InsertarParaleloValid | models/paralelo.py:22-24 | inserting a section of an existing course with an unused label keeps the store valid |
| ParaleloManager.CrearParalelo | managers/paralelo_manager.py:16-45 | None with nothing changed exactly for an unknown course or a label the course already has; otherwise exactly the new normalised section |
| ParaleloManager.ListarParalelosPorMateria | managers/paralelo_manager.py:48-63 | [] for an unknown course, otherwise exactly its sections ordered by label |
| LaboratorioManager.InsertarLaboratorioValid | models/laboratorio.py:25-27 | inserting a lab of an existing course with an unused number keeps the store valid |
| LaboratorioManager.CrearLaboratorio | managers/laboratorio_manager.py:18-52 | None with nothing changed exactly for an unknown course; otherwise the new lab with the next number, normalised title and description, and the given maximum (100.0 by default) |
| LaboratorioManager.SiguienteNumeroNuevo | managers/laboratorio_manager.py:34-42 | the next number is used by no lab of the course, and after the insert the next number grows by one |
| LaboratorioManager.ListarLaboratoriosPorMateria | managers/laboratorio_manager.py:55-70 | [] for an unknown course, otherwise exactly its labs ordered by number |
| LaboratorioManager.ObtenerLaboratorio | managers/laboratorio_manager.py:73-87 | the lab with that key, None exactly when there is none |
| LaboratorioManager.ActualizarLaboratorioValid | managers/laboratorio_manager.py:105-126 | an admitted update keeps the store valid |
| LaboratorioManager.ActualizarLaboratorio | managers/laboratorio_manager.py:90-135 | fails, changing nothing, exactly for an unknown key, a changed number another lab of the course has, or an empty title; otherwise saves exactly the updated row |
| LaboratorioManager.ActualizarSinCampos | managers/laboratorio_manager.py:119-126 | an update without fields is admitted and leaves the lab as it is |
| LaboratorioManager.SinLaboratorio | managers/laboratorio_manager.py:161-173 | the store without the lab and without exactly the grades given in it, other tables unchanged |
| LaboratorioManager.SinLaboratorioValid | managers/laboratorio_manager.py:161-173 | deleting a lab with its grades keeps the store valid |
| LaboratorioManager.SinLaboratorioSinCalificaciones | managers/laboratorio_manager.py:161-173 | without grades in the lab only the lab goes |
| LaboratorioManager.ComoEscritoNoEliminaLaboratorio | managers/laboratorio_manager.py:150-188 | as written, every call that should delete an existing lab reports failure and leaves the store as it was, where the intended delete removes the lab and, when forced, its grades |
| LaboratorioManager.EliminarLaboratorio | managers/laboratorio_manager.py:138-189 | NoExiste for an unknown key; the grade count, changing nothing, when not forced and it is positive; otherwise the lab and its grades go |
| CalificacionManager.ObtenerCalificacionEspecifica | managers/calificacion_manager.py:100-117 | returns a grade of that student in that lab, and None exactly when there is none |
| CalificacionManager.ObtenerCalificacionEspecificaUnica | models/calificacion.py:28-30 | under the (student, lab) index the lookup returns the one grade |
| CalificacionManager.InsertarCalificacionValid | models/calificacion.py:28-30 | inserting the first grade of a student in a lab keeps the store valid |
| CalificacionManager.RegistrarCalificacion | managers/calificacion_manager.py:19-60 | None with nothing changed exactly for an unknown lab or student, a score outside [0, maximum], or an existing grade for the pair; otherwise exactly the new grade with the normalised remark |
| CalificacionManager.RegistrarYObtener | managers/calificacion_manager.py:42-47 | after registering, the specific-grade lookup returns the new grade |
| CalificacionManager.ObtenerCalificacionesEstudiante | managers/calificacion_manager.py:63-78 | [] for an unknown student, otherwise exactly the student's grades joined with their lab, by lab number |
| CalificacionManager.ObtenerCalificacionesLaboratorio | managers/calificacion_manager.py:81-97 | [] for an unknown lab, otherwise exactly the lab's grades joined with their student, by student name |
| CalificacionManager.JoinsCompletos | managers/calificacion_manager.py:75-94 | with valid references the joins drop no grade |
| CalificacionManager.ActualizarCalificacionValid | managers/calificacion_manager.py:133-148 | changing score and remark keeps the store valid |
| CalificacionManager.ActualizarCalificacion | managers/calificacion_manager.py:120-157 | fails, changing nothing, exactly for an unknown key or a new score outside [0, maximum]; otherwise the given score and remark replace the old ones |
| CalificacionManager.ActualizarYObtener | managers/calificacion_manager.py:136-148 | after an update the specific-grade lookup finds the same grade holding the new score |
| CalificacionManager.EliminarCalificacion | managers/calificacion_manager.py:160-191 | succeeds exactly for an existing key and then removes exactly that grade |
| CalificacionManager.EliminarYObtener | managers/calificacion_manager.py:172-175 | after deleting, the specific-grade lookup for that pair returns None |
| CalificacionManager.SinEstudiante | managers/calificacion_manager.py:230-231 | exactly the entries' students that do not exist, in entry order |
| CalificacionManager.LoteValid | managers/calificacion_manager.py:211-231 | applying the batch keeps the store valid |
| CalificacionManager.LoteConserva | managers/calificacion_manager.py:211-231 | grades of students outside the batch are kept as they were |
| CalificacionManager.LoteRegistra | managers/calificacion_manager.py:211-229 | after the batch, every entry whose student exists has exactly one grade in the lab, holding the entry's score |
| CalificacionManager.AplicarLote | managers/calificacion_manager.py:208-231 | the loop computes the batch's effect, the error list, and successes plus errors equal the number of entries |
| CalificacionManager.CalificarPorLotes | managers/calificacion_manager.py:194-249 | LaboratorioNoExiste, changing nothing, exactly for an unknown lab; otherwise the batch's effect, the students in error and the success count |
| EstudianteManager.InsertarEstudianteValid | models/estudiante.py:16-25 | inserting a student of an existing section with an unused CI keeps the store valid |
| EstudianteManager.RegistrarEstudiante | managers/estudiante_manager.py:14-48 | None with nothing changed exactly for an unknown section or a normalised CI already held; otherwise exactly the new normalised student |
| EstudianteManager.RegistrarYBuscar | managers/estudiante_manager.py:31-36 | after registering, the CI lookup returns the new student |
| EstudianteManager.ListarPorParalelo | managers/estudiante_manager.py:51-72 | [] for an unknown section, otherwise exactly its students ordered by (group, name), (CI, name) or name, as asked |
| EstudianteManager.ObtenerEstudiante | managers/estudiante_manager.py:75-90 | the student with that key, None exactly when there is none |
| EstudianteManager.BuscarPorCi | managers/estudiante_manager.py:93-103 | returns a student with exactly that CI, None exactly when there is none |
| EstudianteManager.ActualizarEstudianteValid | managers/estudiante_manager.py:118-152 | an admitted update keeps the store valid |
| EstudianteManager.ActualizarEstudiante | managers/estudiante_manager.py:106-160 | fails, changing nothing, exactly for an unknown key, a changed stripped CI another student holds, an unknown new section, or an empty name or CI; otherwise saves exactly the updated row |
| EstudianteManager.ComoEscritoNoCambiaDeParalelo | managers/estudiante_manager.py:137-150 | a valid store and an admitted section change that the code as written rejects |
| EstudianteManager.CambioDeParalelo | managers/estudiante_manager.py:137-143 | after an admitted section change the student is in the new section and has left every other one |
| EstudianteManager.ActualizarGrupo | managers/estudiante_manager.py:163-178 | succeeds exactly for an existing student and then changes only the group, stripped, or NULL for an empty one |
| EstudianteManager.SinEstudianteNiNotas | managers/estudiante_manager.py:204-215 | the store without the student and without exactly the student's grades, other tables unchanged |
| EstudianteManager.SinEstudianteNiNotasValid | managers/estudiante_manager.py:204-215 | deleting a student with their grades keeps the store valid |
| EstudianteManager.EliminarEstudiante | managers/estudiante_manager.py:181-232 | NoExiste for an unknown key; the grade count, changing nothing, when not forced and it is positive; otherwise the student and their grades go |
| EstudianteManager.Agrupar | managers/estudiante_manager.py:262-267 | the group loop changes only groups, and no student is added or removed |
| EstudianteManager.AgruparSpec | managers/estudiante_manager.py:262-267 | the student in position i gets "Grupo <i // k + 1>"; students not listed keep their row |
| EstudianteManager.GruposDeTamanoK | managers/estudiante_manager.py:258-263 | with k > 0, group numbers run from 1 to ceil(n / k) in listing order, and two students of one group are fewer than k positions apart |
| EstudianteManager.AsignarGrupos | managers/estudiante_manager.py:260-270 | the loop assigns the groups Agrupar describes and reports the highest group number: ceil(n / k) for k > 0, and 1 for k < 0 |
| EstudianteManager.OrganizarGruposAutomatico | managers/estudiante_manager.py:235-280 | SinEstudiantes for an unknown or empty section; DivisionPorCero for k = 0; both change nothing; otherwise every student of the section, taken in name order, gets their group |
| EstudianteManager.GruposEnSpec | managers/estudiante_manager.py:301-305 | the collected set holds exactly the truthy groups of the visited students |
| EstudianteManager.ResumenFinal | managers/estudiante_manager.py:299-305 | over a listing of the section, the loop's set is the section's groups and its counter the number of students without a group |
| EstudianteManager.RecorrerParalelo | managers/estudiante_manager.py:299-305 | the loop computes the set of groups and the count of students without one |
| EstudianteManager.ObtenerEstadisticasParalelo | managers/estudiante_manager.py:283-322 | None exactly for an unknown section; otherwise the student, group and ungrouped counts, the mean of the students' averages, and the groups each once in ascending order |
| EstudianteManager.SinGrupoMasConGrupo | managers/estudiante_manager.py:301-305 | every student counts once: with a group or without |
| EstudianteManager.PromedioGeneralEnRango | managers/estudiante_manager.py:308-309 | with every student's average in [lo, hi] the section's mean is in [lo, hi], or 0.0 |
| EstudianteManager.PromediosEn | managers/estudiante_manager.py:308 | the i-th average is the i-th student's average |

## Left out

- Console output (`print`) and the exact text of messages, including the
  text of batch errors: the model keeps only the failing student keys.
- `round(x, 2)` and `round(x, 1)` on averages and percentages: the model
  keeps the exact real value. Scores are reals, not IEEE floats.
- Timestamps: `fecha_registro`, `fecha_creacion`, `fecha_modificacion` and
  the `fecha` entry of the per-lab view.
- `__str__`, `nombre_completo_con_info` and the `paralelo_info` text of the
  section statistics.
- Keyword arguments that are not columns, and non-text values for text
  columns, in the `actualizar_*` operations. Each update takes only the
  fields its table has. Moving a lab to another course is also left out:
  a lab keeps its `id_materia`.
- `str.upper()` is modelled for ASCII letters and U+00E0-U+00FE without
  U+00F7 only. Other letters, among them U+00DF (Python gives "SS"), U+00FF
  and U+00B5, are kept unchanged. Case-folding
  in `contains` is modelled for ASCII only. LIKE wildcards in the search
  term are taken literally.
- Primary keys are drawn from one counter shared by all tables. SQLite counts
  per table, and only the freshness of a key matters here.
- The order of rows that SQL leaves unspecified: ties under `order_by`, and
  the student order in `obtener_estadisticas_paralelo`, which the model
  takes as key order.
- `max_length` limits on text columns.
- Exceptions other than the ones the code handles (a lost database file,
  a locked database).
- Creating the tables on first use (`inicializar_bd`). `Database.Store`
  starts empty.
- PorcentajeNota, EstadoAprobacion, EsAprobado: a grade with a truthy score
  on a lab with maximum 0 divides by zero in the source. Those calls are
  excluded by a precondition.
- CalificarPorLotes: the batch is a dict, so its keys are distinct. The
  model requires distinct keys rather than modelling a dict.

## Findings

Row 1 reads the misspelled import at managers/materia_manager.py:164 as
corrected, like the list of misspellings above. Taken literally, that import
raises ImportError, and a forced delete of a course with dependants deletes
nothing. Row 2 reads `.exist()` (managers/estudiante_manager.py:126) as
`.exists()`; its witness changes no CI, so that line is never reached. Row 3
takes the source literally.

| source | as written | input that shows it | evidently intended | confidence | as-written member | corrected member |
|---|---|---|---|---|---|---|
| managers/materia_manager.py:169-194 | the forced delete of a course removes the grades of the course's students, then the course's labs and sections; a grade that a student of another course holds on one of the deleted labs stays and refers to a deleted lab | course 0 with lab 4, course 1 with section 2 and student 3, grade 5 of student 3 on lab 4; delete course 0 forced | also delete every grade on the course's labs, so no grade refers to a missing lab | not executed | MateriaManager.CascadaComoEscritaDejaHuerfanas | MateriaManager.CascadaMateriaValid |
| managers/estudiante_manager.py:137-150 | `id_paralelo` is replaced by the Paralelo object, and the field loop then calls `.strip()` on it, which raises and makes every section change return False | a valid store with sections 1 and 2 of one course and student 3 in section 1; update student 3 with `id_paralelo=2` | move the student to the given existing section | not executed | EstudianteManager.ComoEscritoNoCambiaDeParalelo | EstudianteManager.CambioDeParalelo |
| managers/laboratorio_manager.py:163-171 | taken literally, a forced call on a lab with grades raises ImportError at line 163, before any grade is deleted; every other call on an existing lab reaches `str(laboratorio)` at line 171, whose `__str__` names the undefined `sef` (models/laboratorio.py:31); either error reaches the generic handler, so the call reports failure and nothing is deleted | any existing lab without grades, or any existing lab with `forzar=True` | delete the lab, with its grades when forced | not executed | LaboratorioManager.ComoEscritoNoEliminaLaboratorio | LaboratorioManager.EliminarLaboratorio |
